/** The service rewrite keeps a candidate live: no reference cycle, and a node behind every automatic group. */
module ServiceLive {
  import opened Ordering
  import opened Results
  import opened Routing
  import opened Validator
  import opened GroupLiveness
  import opened AiPruning
  import opened ServiceQualification
  import opened ServiceLeaves
  import opened ServiceRewrite
  import opened ServiceWiring
  import opened ServiceBlocks
  import opened ServiceReady
  import opened ServiceClosed
  import opened ServiceRules
  import GroupCycles
  import ExactFilter

  // ----- after the pruning -----

  lemma OriginFound(groups: seq<Group>, emptied: set<string>, g: Group) returns (h: Group)
    requires UniqueNames(groups) && PolicyIndex(groups) < |groups| && g in PrunedGroups(groups, emptied)
    ensures Find(groups, g.name) == Some(h) && Find(PrunedGroups(groups, emptied), g.name) == Some(g)
    ensures g.name !in Gone(groups, emptied) && g == h.(proxies := g.proxies) && (g.name != AI_GROUP ==> g == h)
    ensures forall m :: m in g.proxies ==> m in h.proxies
  {
    h := PrunedOrigin(groups, emptied, g);
    SameName(groups, h, h);
    PrunedUnique(groups, emptied);
    SameName(PrunedGroups(groups, emptied), g, g);
  }

  lemma PrunedAcyclic(groups: seq<Group>, emptied: set<string>)
    requires UniqueNames(groups) && PolicyIndex(groups) < |groups| && GroupCycles.Acyclic(GroupGraph(groups))
    ensures GroupCycles.Acyclic(GroupGraph(PrunedGroups(groups, emptied)))
  {
    var after := PrunedGroups(groups, emptied);
    forall n, m | n in GroupNames(after) && m in MemberGroups(after, n) ensures n in GroupNames(groups) && m in MemberGroups(groups, n) {
      NamedFound(after, n);
      var h := OriginFound(groups, emptied, Find(after, n).value);
      NamedFound(after, m);
      var k := OriginFound(groups, emptied, Find(after, m).value);
      NamedFound(groups, n);
      NamedFound(groups, m);
    }
    FewerReferences(groups, after);
  }

  lemma PrunedNames(providers: map<string, Provider>, names: set<string>, p: string)
    requires p in AiProviders(providers) && p !in Emptied(providers, names)
    ensures p in PrunedProviders(providers, names) && PayloadNames(PrunedProviders(providers, names)[p]) != {}
  {
    FilledNames(PrunedProviders(providers, names)[p]);
  }

  /** The anchor of a provider that keeps a node has one after the pruning. */
  lemma AnchorNode(search: Search, providers: map<string, Provider>, groups: seq<Group>, names: set<string>, p: string)
    requires Routable(providers, groups) && p in AiProviders(providers) && p !in Emptied(providers, names)
    ensures HasNode(search, PrunedProviders(providers, names), PrunedGroups(groups, Emptied(providers, names)), AnchorOf(groups, p).value)
  {
    RetainedAnchor(providers, groups, names, p);
    PrunedNames(providers, names, p);
    var a := Find(groups, AnchorOf(groups, p).value).value;
    assert p in a.uses;
    UnfilteredOffers(search, PrunedProviders(providers, names), a, p);
    OfferIsNode(search, PrunedProviders(providers, names), PrunedGroups(groups, Emptied(providers, names)), a);
  }

  /** So has a group that refers to that anchor. */
  lemma OverAnchorNode(search: Search, providers: map<string, Provider>, groups: seq<Group>, names: set<string>, p: string, g: Group)
    requires Routable(providers, groups) && p in AiProviders(providers) && p !in Emptied(providers, names)
    requires Find(PrunedGroups(groups, Emptied(providers, names)), g.name) == Some(g) && g.name !in BUILTINS
    requires g.name == AnchorOf(groups, p).value || AnchorOf(groups, p).value in g.proxies
    ensures HasNode(search, PrunedProviders(providers, names), PrunedGroups(groups, Emptied(providers, names)), g.name)
  {
    AnchorNode(search, providers, groups, names, p);
    if g.name != AnchorOf(groups, p).value {
      MemberIsNode(search, PrunedProviders(providers, names), PrunedGroups(groups, Emptied(providers, names)), g, AnchorOf(groups, p).value);
    }
  }

  /** The country group of a provider that keeps a node, as it stands after the pruning. */
  lemma WrapperNode(search: Search, providers: map<string, Provider>, groups: seq<Group>, names: set<string>, p: string)
    requires GroupsReady(providers, groups) && AI_GROUP !in Removable(groups, AiProviders(providers))
    requires p in AiProviders(providers) && p !in Emptied(providers, names)
    ensures var w := WrapperOf(groups, AnchorOf(groups, p).value).value;
            HasNode(search, PrunedProviders(providers, names), PrunedGroups(groups, Emptied(providers, names)), w)
  {
    var ai, emptied := AiProviders(providers), Emptied(providers, names);
    WrapperStays(groups, ai, emptied, p);
    var w := WrapperSingle(groups, ai, p);
    var after := PrunedGroups(groups, emptied);
    var g := Find(after, w.name).value;
    var h := OriginFound(groups, emptied, g);
    SameName(groups, h, w);
    assert w.name != AI_GROUP;
    assert AnchorOf(groups, p).value in g.proxies;
    OverAnchorNode(search, providers, groups, names, p, g);
  }

  lemma PolicyAfter(groups: seq<Group>, ai: set<string>, emptied: set<string>) returns (policy: Group)
    requires UniqueNames(groups) && PolicyIndex(groups) < |groups| && emptied <= ai && AI_GROUP !in Removable(groups, ai)
    ensures policy.name == AI_GROUP && Find(PrunedGroups(groups, emptied), AI_GROUP) == Some(policy)
    ensures policy.proxies == KeepMembers(PolicyMembers(groups), GonePublic(groups, emptied))
  {
    PolicyStays(groups, ai, emptied);
    PrunedUnique(groups, emptied);
    var after := PrunedGroups(groups, emptied);
    policy := after[PolicyIndex(after)];
    SameName(after, policy, policy);
  }

  lemma PolicyNode(search: Search, providers: map<string, Provider>, groups: seq<Group>, names: set<string>, p: string)
    requires GroupsReady(providers, groups) && AI_GROUP !in Removable(groups, AiProviders(providers))
    requires p in AiProviders(providers) && p !in Emptied(providers, names)
    ensures HasNode(search, PrunedProviders(providers, names), PrunedGroups(groups, Emptied(providers, names)), AI_GROUP)
  {
    var policy := PolicyAfter(groups, AiProviders(providers), Emptied(providers, names));
    WrapperStays(groups, AiProviders(providers), Emptied(providers, names), p);
    WrapperNode(search, providers, groups, names, p);
    NotBuiltinPolicy();
    MemberIsNode(search, PrunedProviders(providers, names), PrunedGroups(groups, Emptied(providers, names)), policy,
                 WrapperOf(groups, AnchorOf(groups, p).value).value);
  }

  lemma NotBuiltinPolicy()
    ensures AI_GROUP !in BUILTINS
  {
  }

  lemma OtherOffers(search: Search, providers: map<string, Provider>, names: set<string>, g: Group)
    requires forall p :: p in g.uses ==> p !in AiProviders(providers)
    ensures NodesOffered(search, providers, g) <= NodesOffered(search, PrunedProviders(providers, names), g)
  {
    OffersKept(search, providers, PrunedProviders(providers, names), g);
  }

  /** Every group that stays keeps its way to a node, or has a node at once. */
  lemma PrunedWay(search: Search, providers: map<string, Provider>, groups: seq<Group>, names: set<string>, survivor: string, x: string)
    requires GroupsReady(providers, groups) && Resolved(groups) && AI_GROUP !in Removable(groups, AiProviders(providers))
    requires survivor in AiProviders(providers) && survivor !in Emptied(providers, names)
    requires x in GroupNames(groups) - Gone(groups, Emptied(providers, names)) && IsGroup(groups, x)
    ensures WayKept(search, providers, groups, PrunedProviders(providers, names), PrunedGroups(groups, Emptied(providers, names)),
                    GroupNames(groups) - Gone(groups, Emptied(providers, names)), x)
  {
    var ai, emptied := AiProviders(providers), Emptied(providers, names);
    var after, pruned := PrunedGroups(groups, emptied), PrunedProviders(providers, names);
    var h := Find(groups, x).value;
    if x == AI_GROUP {
      PolicyNode(search, providers, groups, names, survivor);
    } else {
      var g := PrunedImage(groups, emptied, h);
      if p :| p in h.uses && p in ai {
        NotOver(groups, emptied, h, p);
        OverAnchorNode(search, providers, groups, names, p, g);
      } else if NodesOffered(search, providers, h) != {} {
        OtherOffers(search, providers, names, h);
        OfferIsNode(search, pruned, after, g);
      } else {
        forall m | m in h.proxies && HasNode(search, providers, groups, m) ensures m in GroupNames(groups) - Gone(groups, emptied) {
          NodeIsGroup(search, providers, groups, m);
          ReferenceStays(groups, ai, emptied, h, m);
        }
      }
    }
  }

  lemma PrunedLive(search: Search, providers: map<string, Provider>, groups: seq<Group>, names: set<string>)
    requires GroupsReady(providers, groups) && Resolved(groups) && AI_GROUP !in Removable(groups, AiProviders(providers))
    requires names != {} && names <= CandidateNames(providers) && Live(search, providers, groups)
    ensures Live(search, PrunedProviders(providers, names), PrunedGroups(groups, Emptied(providers, names)))
  {
    var emptied := Emptied(providers, names);
    var kept := GroupNames(groups) - Gone(groups, emptied);
    var survivor := SomeSurvivor(providers, names);
    PrunedAcyclic(groups, emptied);
    forall x | x in kept && IsGroup(groups, x)
      ensures WayKept(search, providers, groups, PrunedProviders(providers, names), PrunedGroups(groups, emptied), kept, x)
    {
      PrunedWay(search, providers, groups, names, survivor, x);
    }
    forall g | g in PrunedGroups(groups, emptied) && Measured(g)
      ensures EmptyStable(g) || HasNode(search, PrunedProviders(providers, names), PrunedGroups(groups, emptied), g.name)
    {
      var h := OriginFound(groups, emptied, g);
      if HasNode(search, providers, groups, g.name) {
        NodeKept(search, providers, groups, PrunedProviders(providers, names), PrunedGroups(groups, emptied), kept, g.name);
      } else if g.name == AI_GROUP {
        PolicyNode(search, providers, groups, names, survivor);
      }
    }
  }

  // ----- after the services -----

  lemma MoreLive(search: Search, providers: map<string, Provider>, groups: seq<Group>, g: Group)
    requires Live(search, providers, groups) && Resolved(groups) && Find(groups, g.name).None? && g.name !in BUILTINS && g.name !in g.proxies
    requires Measured(g) ==> HasNode(search, providers, groups + [g], g.name)
    ensures Live(search, providers, groups + [g])
  {
    AppendAcyclic(groups, g);
    forall h | h in groups + [g] && Measured(h) ensures EmptyStable(h) || HasNode(search, providers, groups + [g], h.name) {
      if h in groups && HasNode(search, providers, groups, h.name) { NodesGrow(search, providers, groups, [g], h.name); }
    }
  }

  /** A clone offers its names. */
  lemma CloneNode(search: Search, providers: map<string, Provider>, groups: seq<Group>, g: Group, p: string, names: set<string>)
    requires names != {} && p in providers && names <= PayloadNames(providers[p])
    requires Find(groups, g.name) == Some(g) && g.name !in BUILTINS && g.uses == [p] && g.filter == Some(ExactFilter.Text(names).value)
    ensures HasNode(search, providers, groups, g.name)
  {
    assert p in g.uses;
    ExactOffers(search, providers, g, p, names);
    OfferIsNode(search, providers, groups, g);
  }

  lemma FoundAtEnd(groups: seq<Group>, g: Group)
    requires Find(groups, g.name).None?
    ensures Find(groups + [g], g.name) == Some(g)
  {
    FindAppend(groups, [g], g.name);
  }

  /** The clones of served providers select nodes those providers hold. */
  ghost predicate Holding(providers: map<string, Provider>, served: seq<string>, names: map<string, set<string>>) {
    forall p :: p in served ==> p in names && names[p] != {} && p in providers && names[p] <= PayloadNames(providers[p])
  }

  lemma NewNames(groups: seq<Group>, block: seq<Group>, k: nat)
    requires UniqueNames(groups + block) && k < |block|
    ensures Find(groups + block[..k], block[k].name).None? && Find(groups + block, block[k].name) == Some(block[k])
  {
    var all := groups + block;
    FindUnique(all, |groups| + k);
    forall g | g in groups + block[..k] ensures g.name != block[k].name {
      var i :| 0 <= i < |groups| + k && (groups + block[..k])[i] == g;
      assert all[i] == g && all[|groups| + k] == block[k];
    }
  }

  lemma OneClone(block: seq<Group>, s: Service, served: seq<string>, names: map<string, set<string>>, digest: string -> string, k: nat)
    requires IsBlock(block, s, served, digest) && Selective(block, served, names) && k < |served|
    ensures block[k].name !in BUILTINS && block[k].uses == [served[k]] && block[k].proxies == []
    ensures served[k] in served && served[k] in names && names[served[k]] != {} && block[k].filter == Some(ExactFilter.Text(names[served[k]]).value)
  {
    assert block[k] == block[..|served|][k];
    NotBuiltin(s, served[k], digest);
  }

  /** One clone appended. */
  lemma CloneLive(search: Search, providers: map<string, Provider>, before: seq<Group>, g: Group, p: string, names: set<string>)
    requires Live(search, providers, before) && Resolved(before) && Find(before, g.name).None?
    requires names != {} && p in providers && names <= PayloadNames(providers[p])
    requires g.name !in BUILTINS && g.uses == [p] && g.proxies == [] && g.filter == Some(ExactFilter.Text(names).value)
    ensures Live(search, providers, before + [g]) && Resolved(before + [g])
  {
    FoundAtEnd(before, g);
    CloneNode(search, providers, before + [g], g, p, names);
    MoreLive(search, providers, before, g);
    forall h, m | h in before + [g] && m in h.proxies ensures Defined(before + [g], m) { DefinedGrows(before, [g], m); }
  }

  lemma OneLonger(a: seq<Group>, b: seq<Group>, n: nat)
    requires n < |b|
    ensures a + b[..n + 1] == a + b[..n] + [b[n]]
    ensures n + 1 == |b| ==> a + b == a + b[..n] + [b[n]]
  {
  }

  lemma {:induction false} ClonesLive(search: Search, providers: map<string, Provider>, groups: seq<Group>, block: seq<Group>, s: Service, served: seq<string>,
                                      names: map<string, set<string>>, digest: string -> string, k: nat)
    requires Live(search, providers, groups) && Resolved(groups) && UniqueNames(groups + block) && k <= |served|
    requires IsBlock(block, s, served, digest) && Selective(block, served, names) && Holding(providers, served, names)
    ensures Live(search, providers, groups + block[..k]) && Resolved(groups + block[..k])
  {
    if k == 0 {
      assert groups + block[..0] == groups;
    } else {
      var n := k - 1;
      ClonesLive(search, providers, groups, block, s, served, names, digest, n);
      OneLonger(groups, block, n);
      NewNames(groups, block, n);
      OneClone(block, s, served, names, digest, n);
      CloneLive(search, providers, groups + block[..n], block[n], served[n], names[served[n]]);
    }
  }

  lemma TargetOfBlock(block: seq<Group>, s: Service, served: seq<string>, digest: string -> string)
    requires IsBlock(block, s, served, digest)
    ensures var t := block[|served|];
            t.name !in BUILTINS && t.name !in t.proxies && (Measured(t) ==> served != [] && block[0].name in t.proxies)
  {
    NotBuiltin(s, "", digest);
    forall i | 0 <= i < |served| ensures CloneName(s, served[i], digest) != Target(s) { NamesApart(s, served[i], s, "", digest); }
    if served != [] {
      assert block[0] == block[..|served|][0];
      assert Children(s, served, digest)[0] == block[0].name;
    } else {
      assert "REJECT" in BUILTINS;
    }
  }

  /** A measured target has a clone, which has a node. */
  lemma TargetNode(search: Search, providers: map<string, Provider>, groups: seq<Group>, block: seq<Group>, s: Service, served: seq<string>,
                   names: map<string, set<string>>, digest: string -> string)
    requires UniqueNames(groups + block) && IsBlock(block, s, served, digest) && Selective(block, served, names) && Holding(providers, served, names)
    ensures Measured(block[|served|]) ==> HasNode(search, providers, groups + block, block[|served|].name)
  {
    TargetOfBlock(block, s, served, digest);
    if Measured(block[|served|]) {
      OneClone(block, s, served, names, digest, 0);
      NewNames(groups, block, 0);
      CloneNode(search, providers, groups + block, block[0], served[0], names[served[0]]);
      NewNames(groups, block, |served|);
      MemberIsNode(search, providers, groups + block, block[|served|], block[0].name);
    }
  }

  /** A service's block keeps the groups live. */
  lemma BlockLive(search: Search, providers: map<string, Provider>, groups: seq<Group>, block: seq<Group>, s: Service, served: seq<string>,
                  names: map<string, set<string>>, digest: string -> string)
    requires Live(search, providers, groups) && Resolved(groups) && UniqueNames(groups + block)
    requires IsBlock(block, s, served, digest) && Selective(block, served, names) && Holding(providers, served, names)
    ensures Live(search, providers, groups + block)
  {
    ClonesLive(search, providers, groups, block, s, served, names, digest, |served|);
    TargetOfBlock(block, s, served, digest);
    TargetNode(search, providers, groups, block, s, served, names, digest);
    NewNames(groups, block, |served|);
    OneLonger(groups, block, |served|);
    MoreLive(search, providers, groups + block[..|served|], block[|served|]);
  }

  /** A service that can be built keeps the list live. */
  lemma OneServiceLive(search: Search, providers: map<string, Provider>, base: seq<Group>, now: Result<seq<Group>>, s: Service, st: Setting,
                       free: set<Service>, ai: set<string>)
    requires Probed(st.qualified) && Extends(now, providers, base, free, ai, st.digest) && s in free && Live(search, providers, now.value)
    requires Servable(providers, base, st, s, ai) && DigestsDiffer(ai, st.digest) && Holding(providers, ServedIn(st, s), PlanIn(st, s).names)
    ensures var r := AddService(now.value, s, st.order, st.byPublic, PlanIn(st, s)); r.Ok? && Live(search, providers, r.value)
  {
    UsableLonger(base, now.value, ServedIn(st, s), PlanIn(st, s));
    var block := BlockAdded(now.value, s, st.order, st.byPublic, PlanIn(st, s));
    BlockKeeps(providers, now.value, block, s, ServedIn(st, s), free, ai, st.digest);
    BlockLive(search, providers, now.value, block, s, ServedIn(st, s), PlanIn(st, s).names, st.digest);
  }

  lemma {:induction false} ServicesLive(search: Search, providers: map<string, Provider>, base: seq<Group>, services: seq<Service>, st: Setting,
                                        free: set<Service>, ai: set<string>)
    requires Probed(st.qualified) && Sound(providers, base) && NoDuplicates(services) && (forall s :: s in services ==> s in free)
    requires forall s :: s in services ==> Servable(providers, base, st, s, ai) && Holding(providers, ServedIn(st, s), PlanIn(st, s).names)
    requires DigestsDiffer(ai, st.digest) && NamesFree(base, free, ai, st.digest) && Live(search, providers, base)
    ensures AddServices(base, services, st).Ok? && Live(search, providers, AddServices(base, services, st).value)
  {
    if services != [] {
      var n := |services| - 1;
      var init, s := services[..n], services[n];
      LastService(services, free);
      ServicesLive(search, providers, base, init, st, free, ai);
      ServicesAdded(providers, base, init, st, free, ai);
      AddServicesOne(base, services, st);
      OneServiceLive(search, providers, base, AddServices(base, init, st), s, st, free - (set t | t in init), ai);
    }
  }

  // ----- hiding -----

  lemma {:induction false} HideFind(groups: seq<Group>, names: set<string>, n: string)
    ensures Find(Hide(groups, names), n) == if Find(groups, n).Some? then Some(HiddenIf(Find(groups, n).value, names)) else None
  {
    if groups != [] {
      assert Hide(groups, names)[1..] == Hide(groups[1..], names);
      HideFind(groups[1..], names, n);
    }
  }

  lemma HideLive(search: Search, providers: map<string, Provider>, groups: seq<Group>, hidden: set<string>)
    requires Live(search, providers, groups)
    ensures Live(search, providers, Hide(groups, hidden))
  {
    var after := Hide(groups, hidden);
    forall n ensures Find(after, n) == if Find(groups, n).Some? then Some(HiddenIf(Find(groups, n).value, hidden)) else None { HideFind(groups, hidden, n); }
    forall n, m | n in GroupNames(after) && m in MemberGroups(after, n) ensures n in GroupNames(groups) && m in MemberGroups(groups, n) {
      NamedFound(after, n);
      NamedFound(groups, n);
      NamedFound(after, m);
      NamedFound(groups, m);
    }
    FewerReferences(groups, after);
    forall x | x in GroupNames(groups) && IsGroup(groups, x) ensures WayKept(search, providers, groups, providers, after, GroupNames(groups), x) {
      if OfferedBy(search, providers, groups, x) != {} { OfferIsNode(search, providers, after, Find(after, x).value); }
      forall m | m in Find(groups, x).value.proxies && HasNode(search, providers, groups, m) ensures m in GroupNames(groups) {
        NodeIsGroup(search, providers, groups, m);
      }
    }
    forall g | g in after && Measured(g) ensures EmptyStable(g) || HasNode(search, providers, after, g.name) {
      var i :| 0 <= i < |after| && after[i] == g;
      assert groups[i] in groups;
      if HasNode(search, providers, groups, groups[i].name) {
        NodeIsGroup(search, providers, groups, groups[i].name);
        NodeKept(search, providers, groups, providers, after, GroupNames(groups), g.name);
      }
    }
  }

  // ----- both paths -----

  lemma ServedHolding(st: Setting, groups: seq<Group>, s: Service)
    requires SettingReady(st, groups)
    ensures Holding(PrunedProviders(st.providers, Union(st.qualified)), ServedIn(st, s), PlanIn(st, s).names)
  {
    forall p | p in ServedIn(st, s)
      ensures var names, providers := PlanIn(st, s).names, PrunedProviders(st.providers, Union(st.qualified));
              p in names && names[p] != {} && p in providers && names[p] <= PayloadNames(providers[p])
    {
      ServedPayload(st, groups, s, p);
    }
  }

  lemma BuiltLive(search: Search, st: Setting, groups: seq<Group>, services: seq<Service>, free: set<Service>)
    requires SettingReady(st, groups) && Sound(st.providers, groups) && Union(st.qualified) != {} && Live(search, st.providers, groups)
    requires NoDuplicates(services) && (forall s :: s in services ==> s in free) && free <= {OpenAi, Claude, Gemini}
    ensures AddServices(BaseOf(st, groups), services, st).Ok?
    ensures Live(search, PrunedProviders(st.providers, Union(st.qualified)), AddServices(BaseOf(st, groups), services, st).value)
  {
    PrunedSound(st.providers, groups, Union(st.qualified));
    PrunedLive(search, st.providers, groups, Union(st.qualified));
    BaseFree(st, groups);
    forall s | s in services
      ensures Servable(PrunedProviders(st.providers, Union(st.qualified)), BaseOf(st, groups), st, s, AiProviders(st.providers))
      ensures Holding(PrunedProviders(st.providers, Union(st.qualified)), ServedIn(st, s), PlanIn(st, s).names)
    {
      ServedServable(st, groups, s);
      ServedHolding(st, groups, s);
    }
    ServicesLive(search, PrunedProviders(st.providers, Union(st.qualified)), BaseOf(st, groups), services, st, free, AiProviders(st.providers));
  }

  lemma FinishesFrom(search: Search, st: Setting, providers: map<string, Provider>, base: seq<Group>, ruleProviders: map<string, RuleProvider>,
                     rules: seq<Rule>, out: seq<Group>)
    requires Probed(st.qualified) && AddServices(base, SERVICES, st) == Ok(out) && Rewritable(ruleProviders, rules)
    requires forall w :: w in st.byPublic.Keys ==> Find(out, w).Some?
    requires Structured(providers, Hide(out, st.byPublic.Keys), WithServiceLists(ruleProviders), Rewritten(rules))
    requires Live(search, providers, Hide(out, st.byPublic.Keys))
    ensures Finishes(search, st, providers, base, ruleProviders, rules)
  {
  }

  lemma OutLive(search: Search, st: Setting, groups: seq<Group>, services: seq<Service>, free: set<Service>, out: seq<Group>)
    requires SettingReady(st, groups) && Sound(st.providers, groups) && Union(st.qualified) != {} && Live(search, st.providers, groups)
    requires NoDuplicates(services) && (forall s :: s in services ==> s in free) && free <= {OpenAi, Claude, Gemini}
    requires AddServices(BaseOf(st, groups), services, st) == Ok(out)
    ensures Live(search, PrunedProviders(st.providers, Union(st.qualified)), Hide(out, st.byPublic.Keys))
  {
    BuiltLive(search, st, groups, services, free);
    HideLive(search, PrunedProviders(st.providers, Union(st.qualified)), out, st.byPublic.Keys);
  }

  lemma ThreeServices()
    ensures NoDuplicates(SERVICES) && forall s :: s in SERVICES ==> s in {OpenAi, Claude, Gemini}
  {
  }

  /** After the pruning nothing raises, and the validator accepts. */
  lemma ReadyFinishes(search: Search, st: Setting, groups: seq<Group>, ruleProviders: map<string, RuleProvider>, rules: seq<Rule>)
    requires SettingReady(st, groups) && Validated(search, st.providers, groups, ruleProviders, rules) && Union(st.qualified) != {}
    requires RulesApart(rules, Removable(groups, AiProviders(st.providers))) && Rewritable(ruleProviders, rules)
    ensures Finishes(search, st, PrunedProviders(st.providers, Union(st.qualified)), BaseOf(st, groups), ruleProviders, rules)
  {
    var out := ReadyBuilds(st, groups, ruleProviders, rules);
    ThreeServices();
    OutLive(search, st, groups, SERVICES, {OpenAi, Claude, Gemini}, out);
    FinishesFrom(search, st, PrunedProviders(st.providers, Union(st.qualified)), BaseOf(st, groups), ruleProviders, rules, out);
  }

  // ----- failing closed -----

  lemma ClosingPublics(groups: seq<Group>, routes: seq<Routed>, ai: set<string>)
    requires RoutesOf(routes, groups, ai)
    ensures PublicNames(groups, routes) == Countries(groups, ai)
  {
    forall t | t in routes ensures t.wrapper in Countries(groups, ai) { assert IsRoute(groups, t); }
    forall p | p in ai && HasRoute(groups, p) ensures WrapperOf(groups, AnchorOf(groups, p).value).value in PublicNames(groups, routes) {
      var t :| t in routes && t.provider == p;
      assert IsRoute(groups, t);
    }
  }

  /** The groups that go are those the routes name. */
  lemma ClosingIs(groups: seq<Group>, routes: seq<Routed>, ai: set<string>)
    requires RoutesOf(routes, groups, ai)
    ensures RouteGroups(groups, routes) == Closing(groups, ai)
  {
    ClosingPublics(groups, routes, ai);
    var anchors := set p | p in ai && AnchorOf(groups, p).Some? :: AnchorOf(groups, p).value;
    forall t | t in routes ensures t.anchor in anchors { assert IsRoute(groups, t); }
    forall p | p in ai && AnchorOf(groups, p).Some? ensures AnchorOf(groups, p).value in set t | t in routes :: t.anchor {
      var t :| t in routes && t.provider == p;
      assert IsRoute(groups, t);
    }
  }

  lemma {:induction false} KeepFind(groups: seq<Group>, removed: set<string>, n: string)
    ensures Find(Keep(groups, removed), n) == if n in removed then None else Find(groups, n)
  {
    if groups != [] {
      var k := |groups| - 1;
      assert groups == groups[..k] + [groups[k]];
      KeepFind(groups[..k], removed, n);
      FindAppend(groups[..k], [groups[k]], n);
      FindAppend(Keep(groups[..k], removed), [groups[k]], n);
    }
  }

  lemma ClosedFind(groups: seq<Group>, routes: seq<Routed>, n: string)
    requires PolicyIndex(groups) < |groups|
    ensures Find(ClosedKept(groups, routes), n) == if n in RouteGroups(groups, routes) then None else Find(PolicyRejecting(groups), n)
    ensures Find(ClosedGroups(groups, routes), n)
         == if Find(ClosedKept(groups, routes), n).Some? then Find(ClosedKept(groups, routes), n) else Find(RejectTargets(), n)
  {
    KeepFind(PolicyRejecting(groups), RouteGroups(groups, routes), n);
    FindAppend(ClosedKept(groups, routes), RejectTargets(), n);
  }

  lemma RejectsOnly(search: Search, providers: map<string, Provider>, g: Group)
    requires g in RejectTargets()
    ensures g.proxies == ["REJECT"] && "REJECT" in BUILTINS && NodesOffered(search, providers, g) == {} && !Measured(g)
  {
    RejectNames();
    assert g == RejectTarget(OpenAi) || g == RejectTarget(Claude) || g == RejectTarget(Gemini);
  }

  lemma RejectNoNode(search: Search, providers: map<string, Provider>, groups: seq<Group>, n: string)
    requires Find(groups, n).Some? && Find(groups, n).value in RejectTargets()
    ensures !HasNode(search, providers, groups, n)
  {
    RejectsOnly(search, providers, Find(groups, n).value);
    BuiltinNoNode(search, providers, groups, "REJECT");
    if n !in BUILTINS { NodeStep(search, providers, groups, n); } else { BuiltinNoNode(search, providers, groups, n); }
  }

  /** A group of that name is the one of the other list, or a rejecting target. */
  ghost predicate FromOrReject(a: seq<Group>, b: seq<Group>, x: string) {
    Find(a, x).Some? ==> Find(b, x) == Find(a, x) || Find(a, x).value in RejectTargets()
  }

  lemma SameOrReject(search: Search, providers: map<string, Provider>, a: seq<Group>, b: seq<Group>, x: string)
    requires HasNode(search, providers, a, x)
    requires FromOrReject(a, b, x)
    ensures SameIn(a, b, x)
  {
    NodeIsGroup(search, providers, a, x);
    if Find(b, x) != Find(a, x) { RejectNoNode(search, providers, a, x); }
  }

  /** What is left of a group with a node after failing closed is what it was beside a rejecting policy. */
  lemma ClosedSame(search: Search, providers: map<string, Provider>, groups: seq<Group>, routes: seq<Routed>, x: string)
    requires PolicyIndex(groups) < |groups| && HasNode(search, providers, ClosedGroups(groups, routes), x)
    ensures SameIn(ClosedGroups(groups, routes), PolicyRejecting(groups), x)
  {
    ClosedCase(groups, routes, x);
    SameOrReject(search, providers, ClosedGroups(groups, routes), PolicyRejecting(groups), x);
  }

  lemma ClosedCase(groups: seq<Group>, routes: seq<Routed>, x: string)
    requires PolicyIndex(groups) < |groups|
    ensures FromOrReject(ClosedGroups(groups, routes), PolicyRejecting(groups), x)
  {
    ClosedFind(groups, routes, x);
  }

  lemma ClosedAgrees(search: Search, providers: map<string, Provider>, groups: seq<Group>, routes: seq<Routed>)
    requires PolicyIndex(groups) < |groups|
    ensures AgreeOnNodes(search, providers, ClosedGroups(groups, routes), PolicyRejecting(groups))
  {
    forall x | HasNode(search, providers, ClosedGroups(groups, routes), x) ensures SameIn(ClosedGroups(groups, routes), PolicyRejecting(groups), x) {
      ClosedSame(search, providers, groups, routes, x);
    }
  }

  /** A way to a node after failing closed is one without the AI policy and providers. */
  lemma ClosedNodeAlone(search: Search, providers: map<string, Provider>, groups: seq<Group>, routes: seq<Routed>, n: string)
    requires PolicyIndex(groups) < |groups| && HasNode(search, providers, ClosedGroups(groups, routes), n)
    ensures HasNode(search, providers, PolicyRejecting(groups), n)
  {
    ClosedAgrees(search, providers, groups, routes);
    NodesAgree(search, providers, ClosedGroups(groups, routes), PolicyRejecting(groups), n);
  }

  /** A valid closed configuration shows that the other groups stand alone. */
  lemma ClosedStandsAlone(search: Search, providers: map<string, Provider>, groups: seq<Group>, routes: seq<Routed>)
    requires RoutesOf(routes, groups, AiProviders(providers)) && PolicyIndex(groups) < |groups|
    requires Populated(search, providers - AiProviders(providers), ClosedGroups(groups, routes))
    ensures StandsAlone(search, providers, groups)
  {
    var ai := AiProviders(providers);
    ClosingIs(groups, routes, ai);
    forall g | g in PolicyRejecting(groups) && Measured(g) && g.name !in Closing(groups, ai)
      ensures EmptyStable(g) || HasNode(search, providers - ai, PolicyRejecting(groups), g.name)
    {
      assert g in ClosedKept(groups, routes);
      assert g in ClosedGroups(groups, routes);
      if HasNode(search, providers - ai, ClosedGroups(groups, routes), g.name) { ClosedNodeAlone(search, providers - ai, groups, routes, g.name); }
    }
  }

  lemma RejectingFind(groups: seq<Group>, x: string)
    requires UniqueNames(groups) && PolicyIndex(groups) < |groups| && Find(PolicyRejecting(groups), x).Some?
    ensures Find(groups, x).Some? && Find(PolicyRejecting(groups), x).value == Find(groups, x).value.(proxies := Find(PolicyRejecting(groups), x).value.proxies)
    ensures Find(PolicyRejecting(groups), x).value.proxies == if x == AI_GROUP then ["REJECT"] else Find(groups, x).value.proxies
  {
    var i, after := PolicyIndex(groups), PolicyRejecting(groups);
    assert forall k :: 0 <= k < |groups| ==> after[k].name == groups[k].name;
    var k :| 0 <= k < |after| && after[k] == Find(after, x).value;
    FindUnique(groups, k);
  }

  /** A group that stays has the members it had, the policy aside, and none of them goes. */
  lemma StayingMembers(search: Search, providers: map<string, Provider>, groups: seq<Group>, routes: seq<Routed>, x: string, m: string)
    requires GroupsReady(providers, groups) && RoutesOf(routes, groups, AiProviders(providers)) && x !in RouteGroups(groups, routes)
    requires Find(PolicyRejecting(groups), x).Some? && m in Find(PolicyRejecting(groups), x).value.proxies && m !in BUILTINS
    ensures m !in RouteGroups(groups, routes)
  {
    RejectingFind(groups, x);
    if x != AI_GROUP { ClosedReference(providers, groups, routes, Find(groups, x).value, m); }
  }

  lemma ClosedWay(search: Search, providers: map<string, Provider>, groups: seq<Group>, routes: seq<Routed>, names: set<string>, x: string)
    requires GroupsReady(providers, groups) && RoutesOf(routes, groups, AiProviders(providers))
    requires names == GroupNames(PolicyRejecting(groups)) - RouteGroups(groups, routes) && x in names && IsGroup(PolicyRejecting(groups), x)
    ensures WayKept(search, providers - AiProviders(providers), PolicyRejecting(groups), providers - AiProviders(providers), ClosedGroups(groups, routes), names, x)
  {
    var rest, a := providers - AiProviders(providers), PolicyRejecting(groups);
    ClosedFind(groups, routes, x);
    forall m | m in Find(a, x).value.proxies && HasNode(search, rest, a, m) ensures m in names {
      NodeIsGroup(search, rest, a, m);
      StayingMembers(search, providers, groups, routes, x, m);
    }
    SameWay(search, rest, a, rest, ClosedGroups(groups, routes), names, x);
  }

  lemma ClosedPopulated(search: Search, providers: map<string, Provider>, groups: seq<Group>, routes: seq<Routed>)
    requires GroupsReady(providers, groups) && RoutesOf(routes, groups, AiProviders(providers)) && StandsAlone(search, providers, groups)
    ensures Populated(search, providers - AiProviders(providers), ClosedGroups(groups, routes))
  {
    var ai, a := AiProviders(providers), PolicyRejecting(groups);
    var names := GroupNames(a) - RouteGroups(groups, routes);
    ClosingIs(groups, routes, ai);
    forall x | x in names && IsGroup(a, x) ensures WayKept(search, providers - ai, a, providers - ai, ClosedGroups(groups, routes), names, x) {
      ClosedWay(search, providers, groups, routes, names, x);
    }
    forall g | g in ClosedGroups(groups, routes) && Measured(g)
      ensures EmptyStable(g) || HasNode(search, providers - ai, ClosedGroups(groups, routes), g.name)
    {
      if g in ClosedKept(groups, routes) {
        if HasNode(search, providers - ai, a, g.name) { NodeKept(search, providers - ai, a, providers - ai, ClosedGroups(groups, routes), names, g.name); }
      } else {
        RejectsOnly(search, providers, g);
      }
    }
  }

  lemma RejectName(g: Group)
    requires g in RejectTargets()
    ensures g.name !in BUILTINS && g.proxies == ["REJECT"]
  {
    RejectNames();
    NotBuiltin(OpenAi, "", x => x);
    NotBuiltin(Claude, "", x => x);
    NotBuiltin(Gemini, "", x => x);
    assert g == RejectTarget(OpenAi) || g == RejectTarget(Claude) || g == RejectTarget(Gemini);
  }

  lemma OldEdge(groups: seq<Group>, n: string, m: string)
    requires Resolved(groups) && Find(groups, n).Some? && m in Find(groups, n).value.proxies && m !in BUILTINS
    ensures n in GroupNames(groups) && m in MemberGroups(groups, n)
  {
    assert Defined(groups, m);
    NamedFound(groups, n);
    NamedFound(groups, m);
  }

  ghost predicate NoBuiltinNames(groups: seq<Group>) { forall b :: b in BUILTINS ==> Find(groups, b).None? }

  /** A list of old groups, the policy rejecting, and rejecting targets has no new reference between groups. */
  lemma EdgeBefore(a: seq<Group>, groups: seq<Group>, n: string, m: string)
    requires UniqueNames(groups) && PolicyIndex(groups) < |groups| && Resolved(groups)
    requires FromOrReject(a, PolicyRejecting(groups), n) && NoBuiltinNames(a)
    requires n in GroupNames(a) && m in MemberGroups(a, n)
    ensures n in GroupNames(groups) && m in MemberGroups(groups, n)
  {
    NamedFound(a, n);
    NamedFound(a, m);
    RejectIsBuiltin();
    if Find(PolicyRejecting(groups), n) == Find(a, n) {
      RejectingFind(groups, n);
      OldEdge(groups, n, m);
    } else {
      RejectName(Find(a, n).value);
    }
  }

  lemma AcyclicBefore(a: seq<Group>, groups: seq<Group>)
    requires UniqueNames(groups) && PolicyIndex(groups) < |groups| && Resolved(groups) && GroupCycles.Acyclic(GroupGraph(groups))
    requires AllFrom(a, PolicyRejecting(groups)) && NoBuiltinNames(a)
    ensures GroupCycles.Acyclic(GroupGraph(a))
  {
    forall n, m | n in GroupNames(a) && m in MemberGroups(a, n) ensures n in GroupNames(groups) && m in MemberGroups(groups, n) {
      EdgeBefore(a, groups, n, m);
    }
    FewerReferences(groups, a);
  }

  ghost predicate AllFrom(a: seq<Group>, b: seq<Group>) { forall x :: FromOrReject(a, b, x) }

  lemma ClosedFrom(groups: seq<Group>, routes: seq<Routed>)
    requires PolicyIndex(groups) < |groups|
    ensures AllFrom(ClosedGroups(groups, routes), PolicyRejecting(groups))
  {
    forall n ensures FromOrReject(ClosedGroups(groups, routes), PolicyRejecting(groups), n) { ClosedCase(groups, routes, n); }
  }

  /** No group of such a list is called like a builtin. */
  lemma FromNoBuiltin(a: seq<Group>, groups: seq<Group>)
    requires UniqueNames(groups) && PolicyIndex(groups) < |groups| && NoBuiltinNames(groups) && AllFrom(a, PolicyRejecting(groups))
    ensures NoBuiltinNames(a)
  {
    forall b | b in BUILTINS ensures Find(a, b).None? {
      assert FromOrReject(a, PolicyRejecting(groups), b);
      if Find(PolicyRejecting(groups), b).Some? { RejectingFind(groups, b); }
      if Find(a, b).Some? { RejectName(Find(a, b).value); }
    }
  }

  lemma ClosedAcyclic(groups: seq<Group>, routes: seq<Routed>)
    requires UniqueNames(groups) && PolicyIndex(groups) < |groups| && Resolved(groups) && GroupCycles.Acyclic(GroupGraph(groups))
    requires NoBuiltinNames(groups)
    ensures GroupCycles.Acyclic(GroupGraph(ClosedGroups(groups, routes)))
  {
    ClosedFrom(groups, routes);
    FromNoBuiltin(ClosedGroups(groups, routes), groups);
    AcyclicBefore(ClosedGroups(groups, routes), groups);
  }

  lemma RejectIsBuiltin()
    ensures "REJECT" in BUILTINS
  {
  }

  /** Failing closed keeps a candidate live exactly as far as the other groups stand alone. */
  lemma ClosedLive(search: Search, providers: map<string, Provider>, groups: seq<Group>, routes: seq<Routed>)
    requires GroupsReady(providers, groups) && RoutesOf(routes, groups, AiProviders(providers)) && Resolved(groups)
    requires GroupCycles.Acyclic(GroupGraph(groups))
    ensures Live(search, providers - AiProviders(providers), ClosedGroups(groups, routes)) <==> StandsAlone(search, providers, groups)
  {
    ClosedAcyclic(groups, routes);
    if StandsAlone(search, providers, groups) { ClosedPopulated(search, providers, groups, routes); }
    if Populated(search, providers - AiProviders(providers), ClosedGroups(groups, routes)) { ClosedStandsAlone(search, providers, groups, routes); }
  }

  /** With nothing qualified the validator accepts exactly when the other groups stand alone. */
  lemma ReadyCloses(search: Search, providers: map<string, Provider>, groups: seq<Group>, ruleProviders: map<string, RuleProvider>, rules: seq<Rule>,
                    routes: seq<Routed>, digest: string -> string)
    requires Ready(search, providers, groups, ruleProviders, rules, digest) && Rewritable(ruleProviders, rules)
    requires RoutesOf(routes, groups, AiProviders(providers))
    ensures Validated(search, providers - AiProviders(providers), ClosedGroups(groups, routes), WithServiceLists(ruleProviders), Rewritten(rules))
            <==> StandsAlone(search, providers, groups)
  {
    ReadyClosesInOrder(providers, groups, ruleProviders, rules, routes, digest);
    ClosedLive(search, providers, groups, routes);
  }
}
