/** What pruning leaves, read off the candidate: which groups go, what the others become, and how many nodes are counted. */
module PruningOutcome {
  import opened Ordering
  import opened Routing
  import opened Sifting
  import opened AiPruning

  // ----- which groups go -----

  /** An AI provider none of whose nodes is among `names`. */
  ghost predicate Lost(providers: map<string, Provider>, names: set<string>, p: string) {
    && p in providers && "cr_ai_" <= p
    && !(providers[p].payload.Some? && exists x :: x in providers[p].payload.value && x.name in names)
  }

  ghost predicate OverLost(providers: map<string, Provider>, groups: seq<Group>, names: set<string>, n: string) {
    exists g, p :: g in groups && g.name == n && p in g.uses && Lost(providers, names, p)
  }

  ghost predicate OnlyRejects(groups: seq<Group>, n: string) { FindLast(groups, n).Some? && FindLast(groups, n).value.proxies == ["REJECT"] }

  /** A member of the AI policy whose one member is lost or rejects. */
  ghost predicate CountryGoes(providers: map<string, Provider>, groups: seq<Group>, names: set<string>, members: seq<string>, m: string) {
    && m in members && m != "DIRECT" && FindLast(groups, m).Some?
    && exists x :: FindLast(groups, m).value.proxies == [x] && (OverLost(providers, groups, names, x) || OnlyRejects(groups, x))
  }

  /** Groups over a lost provider go, such members of the policy, and what those refer to. */
  ghost predicate GroupGoes(providers: map<string, Provider>, groups: seq<Group>, names: set<string>, members: seq<string>, n: string) {
    || OverLost(providers, groups, names, n) || CountryGoes(providers, groups, names, members, n)
    || exists m :: CountryGoes(providers, groups, names, members, m) && FindLast(groups, m).value.proxies == [n]
  }

  /** The first visible group with the policy's name. */
  ghost predicate IsPolicy(groups: seq<Group>, i: nat) {
    && i < |groups| && groups[i].name == "人工智能" && !groups[i].hidden
    && forall j :: 0 <= j < i ==> groups[j].name != "人工智能" || groups[j].hidden
  }

  lemma LostExactly(providers: map<string, Provider>, names: set<string>, p: string)
    ensures p in Emptied(providers, names) <==> Lost(providers, names, p)
  {
    if p in providers && providers[p].payload.Some? {
      var kept := KeptProxies(providers[p].payload.value, names);
      if kept != [] { assert kept[0] in kept; }
    }
    assert AI_PREFIX == "cr_ai_";
  }

  lemma UsingExactly(providers: map<string, Provider>, groups: seq<Group>, names: set<string>, n: string)
    ensures n in UsingGroups(groups, Emptied(providers, names)) <==> OverLost(providers, groups, names, n)
  {
    forall p ensures p in Emptied(providers, names) <==> Lost(providers, names, p) { LostExactly(providers, names, p); }
    if OverLost(providers, groups, names, n) {
      var g, p :| g in groups && g.name == n && p in g.uses && Lost(providers, names, p);
      assert UsesAny(g, Emptied(providers, names));
    }
  }

  lemma CountryExactly(providers: map<string, Provider>, groups: seq<Group>, names: set<string>, members: seq<string>, m: string)
    ensures m in RemovedPublic(groups, UsingGroups(groups, Emptied(providers, names)), members) <==> CountryGoes(providers, groups, names, members, m)
  {
    var g := FindLast(groups, m);
    if g.Some? && |g.value.proxies| == 1 {
      assert g.value.proxies == [g.value.proxies[0]];
      UsingExactly(providers, groups, names, g.value.proxies[0]);
    }
  }

  lemma GoesExactly(providers: map<string, Provider>, groups: seq<Group>, names: set<string>, members: seq<string>, n: string)
    ensures n in RemovedGroups(groups, UsingGroups(groups, Emptied(providers, names)), members) <==> GroupGoes(providers, groups, names, members, n)
  {
    var using := UsingGroups(groups, Emptied(providers, names));
    UsingExactly(providers, groups, names, n);
    forall m ensures m in RemovedPublic(groups, using, members) <==> CountryGoes(providers, groups, names, members, m) {
      CountryExactly(providers, groups, names, members, m);
    }
    if m :| m in RemovedPublic(groups, using, members) && n == AnchorOfMember(groups, m) { assert FindLast(groups, m).value.proxies == [n]; }
  }

  lemma {:induction false} NoneBefore(groups: seq<Group>, j: nat)
    requires j < PolicyIndex(groups)
    ensures groups[j].name != "人工智能" || groups[j].hidden
  {
    if j > 0 { NoneBefore(groups[1..], j - 1); }
  }

  lemma PolicyExactly(groups: seq<Group>, i: nat)
    ensures IsPolicy(groups, i) ==> i == PolicyIndex(groups)
    ensures PolicyIndex(groups) < |groups| ==> IsPolicy(groups, PolicyIndex(groups))
  {
    var k := PolicyIndex(groups);
    forall j | 0 <= j < k ensures groups[j].name != "人工智能" || groups[j].hidden { NoneBefore(groups, j); }
  }

  // ----- what is left -----

  /** The policy loses the members that go, in order; any other group stays as it is. */
  ghost predicate Left(g: Group, h: Group, providers: map<string, Provider>, groups: seq<Group>, names: set<string>, policy: nat, i: nat) {
    if i == policy then
      && h == g.(proxies := h.proxies)
      && Sifted(g.proxies, (m: string) => !CountryGoes(providers, groups, names, g.proxies, m), h.proxies)
    else h == g
  }

  ghost predicate PrunedAt(providers: map<string, Provider>, groups: seq<Group>, names: set<string>, policy: nat, out: seq<Group>, at: seq<nat>)
    requires policy < |groups|
  {
    && Increasing(at) && |at| == |out| && Picks(groups, (g: Group) => !GroupGoes(providers, groups, names, groups[policy].proxies, g.name), at)
    && forall k :: 0 <= k < |at| ==> at[k] < |groups| && Left(groups[at[k]], out[k], providers, groups, names, policy, at[k])
  }

  /** Exactly the groups that do not go, in their order. */
  ghost predicate PrunedTo(providers: map<string, Provider>, groups: seq<Group>, names: set<string>, policy: nat, out: seq<Group>)
    requires policy < |groups|
  {
    exists at: seq<nat> :: PrunedAt(providers, groups, names, policy, out, at)
  }

  lemma {:induction false} KeepInOrder(groups: seq<Group>, removed: set<string>)
    ensures Sifted(groups, (g: Group) => g.name !in removed, Keep(groups, removed))
  {
    var keep := (g: Group) => g.name !in removed;
    if groups == [] {
      SiftedEmpty(keep);
    } else {
      var n := |groups| - 1;
      assert groups == groups[..n] + [groups[n]];
      KeepInOrder(groups[..n], removed);
      SiftedSnoc(groups[..n], groups[n], keep, Keep(groups[..n], removed));
    }
  }

  /** The groups left by pruning. */
  lemma PrunedExactly(providers: map<string, Provider>, groups: seq<Group>, names: set<string>, policy: nat)
    requires IsPolicy(groups, policy)
    ensures PrunedTo(providers, groups, names, policy, PrunedGroups(groups, Emptied(providers, names)))
  {
    PolicyExactly(groups, policy);
    var using, members := UsingGroups(groups, Emptied(providers, names)), groups[policy].proxies;
    var kept := KeepMembers(members, RemovedPublic(groups, using, members));
    PolicyLeft(providers, groups, names, members);
    UpdatedKept(providers, groups, names, policy, kept);
  }

  /** The policy is rewritten first, then the groups that go are dropped. */
  lemma UpdatedKept(providers: map<string, Provider>, groups: seq<Group>, names: set<string>, policy: nat, kept: seq<string>)
    requires policy < |groups|
    requires Sifted(groups[policy].proxies, (m: string) => !CountryGoes(providers, groups, names, groups[policy].proxies, m), kept)
    ensures PrunedTo(providers, groups, names, policy,
                     Keep(groups[policy := groups[policy].(proxies := kept)],
                          RemovedGroups(groups, UsingGroups(groups, Emptied(providers, names)), groups[policy].proxies)))
  {
    var members, updated := groups[policy].proxies, groups[policy := groups[policy].(proxies := kept)];
    var removed := RemovedGroups(groups, UsingGroups(groups, Emptied(providers, names)), members);
    var out := Keep(updated, removed);
    KeepInOrder(updated, removed);
    var at: seq<nat> :| Increasing(at) && Picks(updated, (g: Group) => g.name !in removed, at) && ReadAt(updated, at, out);
    PicksNames(groups, updated, removed, at, (g: Group) => !GroupGoes(providers, groups, names, members, g.name), providers, names, members);
    forall k | 0 <= k < |at| ensures at[k] < |groups| && Left(groups[at[k]], out[k], providers, groups, names, policy, at[k]) {
      assert out[k] == updated[at[k]];
    }
    assert PrunedAt(providers, groups, names, policy, out, at);
  }

  lemma PicksNames(groups: seq<Group>, updated: seq<Group>, removed: set<string>, at: seq<nat>, stays: Group -> bool,
                   providers: map<string, Provider>, names: set<string>, members: seq<string>)
    requires |updated| == |groups| && forall i :: 0 <= i < |groups| ==> updated[i].name == groups[i].name
    requires removed == RemovedGroups(groups, UsingGroups(groups, Emptied(providers, names)), members)
    requires Picks(updated, (g: Group) => g.name !in removed, at)
    requires forall g: Group :: stays(g) <==> !GroupGoes(providers, groups, names, members, g.name)
    ensures Picks(groups, stays, at)
  {
    forall k: nat ensures k in at <==> k < |groups| && stays(groups[k]) {
      assert k in at <==> k < |updated| && updated[k].name !in removed;
      if k < |groups| { GoesExactly(providers, groups, names, members, groups[k].name); }
    }
  }

  lemma PolicyLeft(providers: map<string, Provider>, groups: seq<Group>, names: set<string>, members: seq<string>)
    ensures var public := RemovedPublic(groups, UsingGroups(groups, Emptied(providers, names)), members);
            Sifted(members, (m: string) => !CountryGoes(providers, groups, names, members, m), KeepMembers(members, public))
  {
    var public := RemovedPublic(groups, UsingGroups(groups, Emptied(providers, names)), members);
    MembersInOrder(members, public);
    forall m ensures m in public <==> CountryGoes(providers, groups, names, members, m) { CountryExactly(providers, groups, names, members, m); }
    SiftedAlike(members, (m: string) => m !in public, (m: string) => !CountryGoes(providers, groups, names, members, m), KeepMembers(members, public));
  }

  // ----- providers -----

  /** An AI provider stays if it has a node among `names`, cut down to those, in order, and otherwise as it was; the others stay as they were. */
  lemma ProvidersExactly(providers: map<string, Provider>, names: set<string>, p: string)
    ensures var after := PrunedProviders(providers, names);
            && (p in after <==> p in providers && !Lost(providers, names, p))
            && (p in after && !("cr_ai_" <= p) ==> after[p] == providers[p])
            && (p in after && "cr_ai_" <= p ==>
                  && providers[p].payload.Some? && after[p].payload.Some? && after[p] == providers[p].(payload := after[p].payload)
                  && Sifted(providers[p].payload.value, (x: Proxy) => x.name in names, after[p].payload.value))
  {
    LostExactly(providers, names, p);
    assert AI_PREFIX == "cr_ai_";
    if p in providers && providers[p].payload.Some? { ProxiesInOrder(providers[p].payload.value, names); }
  }

  // ----- when it goes through -----

  /** Every AI payload is a list, some AI node is among `names`, and some member of the policy other than DIRECT stays. */
  lemma PrunableExactly(providers: map<string, Provider>, groups: seq<Group>, names: set<string>)
    ensures Prunable(providers, groups, names) <==>
            && (forall p :: p in providers && "cr_ai_" <= p ==> providers[p].payload.Some?)
            && (exists p :: p in providers && "cr_ai_" <= p && !Lost(providers, names, p))
            && exists i: nat :: IsPolicy(groups, i) && exists m :: m in groups[i].proxies && m != "DIRECT" && !CountryGoes(providers, groups, names, groups[i].proxies, m)
  {
    assert AI_PREFIX == "cr_ai_";
    forall p ensures p in Emptied(providers, names) <==> Lost(providers, names, p) { LostExactly(providers, names, p); }
    var k := PolicyIndex(groups);
    forall i: nat ensures IsPolicy(groups, i) ==> i == k { PolicyExactly(groups, i); }
    if k < |groups| {
      PolicyExactly(groups, k);
      var members := groups[k].proxies;
      forall m ensures m in RemovedPublic(groups, UsingGroups(groups, Emptied(providers, names)), members) <==> CountryGoes(providers, groups, names, members, m) {
        CountryExactly(providers, groups, names, members, m);
      }
    }
    SomeStays(providers, names);
  }

  lemma SomeStays(providers: map<string, Provider>, names: set<string>)
    ensures AiProviders(providers) != {} && Emptied(providers, names) != AiProviders(providers)
            <==> exists p :: p in providers && "cr_ai_" <= p && !Lost(providers, names, p)
  {
    forall p ensures p in Emptied(providers, names) <==> Lost(providers, names, p) { LostExactly(providers, names, p); }
    assert AI_PREFIX == "cr_ai_";
    if p :| p in AiProviders(providers) && p !in Emptied(providers, names) {}
  }

  // ----- the totals -----

  function Sizes(providers: map<string, Provider>, names: seq<string>): map<string, nat> {
    map p | p in names :: if p in providers && providers[p].payload.Some? then |providers[p].payload.value| else 0
  }

  ghost function KeptSizes(providers: map<string, Provider>, names: set<string>, order: seq<string>): map<string, nat> {
    map p | p in order :: if p in providers && providers[p].payload.Some? then |Kept(providers[p].payload.value, (x: Proxy) => x.name in names)| else 0
  }

  lemma {:induction false} TestedCount(providers: map<string, Provider>, order: seq<string>)
    requires NoDuplicates(order) && forall p :: p in order ==> p in providers
    ensures PayloadTotal(providers, order) == |Slots(Sizes(providers, order))|
  {
    if order == [] {
      assert Sizes(providers, order) == map[];
      SlotsEmpty();
    } else {
      var n := |order| - 1;
      var p := order[n];
      assert order == order[..n] + [p] && p !in order[..n];
      TestedCount(providers, order[..n]);
      SlotsAdd(Sizes(providers, order[..n]), p, Sizes(providers, order)[p]);
      assert Sizes(providers, order) == Sizes(providers, order[..n])[p := Sizes(providers, order)[p]];
    }
  }

  lemma {:induction false} QualifiedCount(providers: map<string, Provider>, names: set<string>, order: seq<string>)
    requires NoDuplicates(order) && forall p :: p in order ==> p in providers
    ensures KeptTotal(providers, names, order) == |Slots(KeptSizes(providers, names, order))|
  {
    if order == [] {
      assert KeptSizes(providers, names, order) == map[];
      SlotsEmpty();
    } else {
      var n := |order| - 1;
      var p := order[n];
      assert order == order[..n] + [p] && p !in order[..n];
      QualifiedCount(providers, names, order[..n]);
      SlotsAdd(KeptSizes(providers, names, order[..n]), p, KeptSizes(providers, names, order)[p]);
      assert KeptSizes(providers, names, order) == KeptSizes(providers, names, order[..n])[p := KeptSizes(providers, names, order)[p]];
      if providers[p].payload.Some? {
        var keep := (x: Proxy) => x.name in names;
        ProxiesInOrder(providers[p].payload.value, names);
        SiftedSize(providers[p].payload.value, keep, KeptProxies(providers[p].payload.value, names));
      }
    }
  }

  /** The totals count every proxy of every AI provider, and those of them among `names`. */
  lemma TotalsExactly(providers: map<string, Provider>, names: set<string>, ai: seq<string>)
    requires ai == Sorted(AiProviders(providers))
    ensures forall p :: p in ai <==> p in providers && "cr_ai_" <= p
    ensures Totals(providers, names).tested == |Slots(Sizes(providers, ai))|
    ensures Totals(providers, names).qualified == |Slots(KeptSizes(providers, names, ai))|
  {
    assert AI_PREFIX == "cr_ai_";
    TestedCount(providers, ai);
    QualifiedCount(providers, names, ai);
  }
}
