/** How rewrites keep a candidate live: fewer references make no cycle, and nodes stay behind the groups that had one. */
module GroupLiveness {
  import opened Results
  import opened Routing
  import opened Validator
  import ExactFilter
  import GroupCycles

  // ----- cycles -----

  /** Every group was there before and lists nothing it did not list. */
  ghost predicate Shrinks(before: seq<Group>, after: seq<Group>) {
    forall n, m :: n in GroupNames(after) && m in MemberGroups(after, n) ==> n in GroupNames(before) && m in MemberGroups(before, n)
  }

  lemma NamedFound(groups: seq<Group>, name: string)
    ensures name in GroupNames(groups) <==> Find(groups, name).Some?
  {
    if Find(groups, name).Some? { assert Find(groups, name).value in groups; }
  }

  lemma FewerReferences(before: seq<Group>, after: seq<Group>)
    requires GroupCycles.Acyclic(GroupGraph(before)) && Shrinks(before, after)
    ensures GroupCycles.Acyclic(GroupGraph(after))
  {
    var g, h := GroupGraph(before), GroupGraph(after);
    forall p ensures !GroupCycles.IsCycle(h, p) {
      if GroupCycles.IsCycle(h, p) {
        forall i | 0 <= i < |p| - 1 ensures p[i] in g && p[i + 1] in g[p[i]] { assert p[i] in h && p[i + 1] in h[p[i]]; }
        assert GroupCycles.IsCycle(g, p);
      }
    }
  }

  /** A node of the graph that nothing points to lies on no cycle. */
  lemma AcyclicWithSource(g: GroupCycles.Graph, h: GroupCycles.Graph, x: string)
    requires GroupCycles.Acyclic(g) && forall n, m :: n in h && m in h[n] ==> m != x && (n != x ==> n in g && m in g[n])
    ensures GroupCycles.Acyclic(h)
  {
    forall p ensures !GroupCycles.IsCycle(h, p) {
      if GroupCycles.IsCycle(h, p) {
        forall i | 0 <= i < |p| - 1 ensures p[i] in g && p[i + 1] in g[p[i]] {
          assert p[i] in h && p[i + 1] in h[p[i]];
          var j := if i == 0 then |p| - 2 else i - 1;
          assert p[j] in h && p[j + 1] in h[p[j]] && p[j + 1] == p[i];
        }
        assert GroupCycles.IsCycle(g, p);
      }
    }
  }

  /** The references of a group are what they were, and nobody refers to the appended one. */
  lemma AppendedMembers(groups: seq<Group>, g: Group, n: string, m: string)
    requires Resolved(groups) && Find(groups, g.name).None? && g.name !in BUILTINS && g.name !in g.proxies
    requires n in GroupNames(groups + [g]) && m in MemberGroups(groups + [g], n)
    ensures m != g.name && (n != g.name ==> n in GroupNames(groups) && m in MemberGroups(groups, n))
  {
    FindAppend(groups, [g], n);
    NamedFound(groups + [g], n);
    NamedFound(groups, n);
    if n != g.name {
      assert Defined(groups, m);
      NamedFound(groups, m);
    }
  }

  /** Appending a group with a new name closes no cycle. */
  lemma AppendAcyclic(groups: seq<Group>, g: Group)
    requires GroupCycles.Acyclic(GroupGraph(groups)) && Resolved(groups)
    requires Find(groups, g.name).None? && g.name !in BUILTINS && g.name !in g.proxies
    ensures GroupCycles.Acyclic(GroupGraph(groups + [g]))
  {
    forall n, m | n in GroupNames(groups + [g]) && m in MemberGroups(groups + [g], n)
      ensures m != g.name && (n != g.name ==> n in GroupNames(groups) && m in MemberGroups(groups, n))
    {
      AppendedMembers(groups, g, n, m);
    }
    AcyclicWithSource(GroupGraph(groups), GroupGraph(groups + [g]), g.name);
  }

  // ----- nodes -----

  /** What a step of the search needs from the configuration after: a node at once, or the same way on. */
  ghost predicate WayKept(search: Search, before: map<string, Provider>, a: seq<Group>, after: map<string, Provider>, b: seq<Group>,
                          names: set<string>, n: string) {
    || HasNode(search, after, b, n)
    || (&& OfferedBy(search, before, a, n) == {} && IsGroup(a, n) && IsGroup(b, n)
        && forall m :: m in Find(a, n).value.proxies && HasNode(search, before, a, m) ==> m in names && m in Find(b, n).value.proxies)
  }

  /** Where every step has its counterpart, a group that had a node has one. */
  lemma {:induction false} NodesKept(search: Search, before: map<string, Provider>, a: seq<Group>, after: map<string, Provider>, b: seq<Group>,
                                     names: set<string>, n: string, depth: nat)
    requires forall x :: x in names && IsGroup(a, x) ==> WayKept(search, before, a, after, b, names, x)
    requires n in names && ReachesIn(search, before, a, n, depth)
    ensures HasNode(search, after, b, n)
    decreases depth
  {
    assert IsGroup(a, n);
    if !HasNode(search, after, b, n) {
      var m :| m in Find(a, n).value.proxies && ReachesIn(search, before, a, m, depth - 1);
      assert HasNode(search, before, a, m);
      NodesKept(search, before, a, after, b, names, m, depth - 1);
      NodeStep(search, after, b, n);
    }
  }

  lemma NodeIsGroup(search: Search, providers: map<string, Provider>, groups: seq<Group>, n: string)
    requires HasNode(search, providers, groups, n)
    ensures IsGroup(groups, n) && n in GroupNames(groups)
  {
    var depth: nat :| ReachesIn(search, providers, groups, n, depth);
    NamedFound(groups, n);
  }

  lemma NodeKept(search: Search, before: map<string, Provider>, a: seq<Group>, after: map<string, Provider>, b: seq<Group>, names: set<string>, n: string)
    requires forall x :: x in names && IsGroup(a, x) ==> WayKept(search, before, a, after, b, names, x)
    requires n in names && HasNode(search, before, a, n)
    ensures HasNode(search, after, b, n)
  {
    var depth: nat :| ReachesIn(search, before, a, n, depth);
    NodesKept(search, before, a, after, b, names, n, depth);
  }

  lemma BuiltinNoNode(search: Search, providers: map<string, Provider>, groups: seq<Group>, n: string)
    requires n in BUILTINS
    ensures !HasNode(search, providers, groups, n)
  {
  }

  /** A group that is the same after, over providers that offer as much, keeps its way. */
  lemma SameWay(search: Search, before: map<string, Provider>, a: seq<Group>, after: map<string, Provider>, b: seq<Group>, names: set<string>, x: string)
    requires IsGroup(a, x) && Find(b, x) == Find(a, x)
    requires NodesOffered(search, before, Find(a, x).value) <= NodesOffered(search, after, Find(a, x).value)
    requires forall m :: m in Find(a, x).value.proxies && HasNode(search, before, a, m) ==> m in names
    ensures WayKept(search, before, a, after, b, names, x)
  {
    if NodesOffered(search, before, Find(a, x).value) != {} { OfferIsNode(search, after, b, Find(b, x).value); }
  }

  /** A group that offers a node has one. */
  lemma OfferIsNode(search: Search, providers: map<string, Provider>, groups: seq<Group>, g: Group)
    requires Find(groups, g.name) == Some(g) && g.name !in BUILTINS && NodesOffered(search, providers, g) != {}
    ensures HasNode(search, providers, groups, g.name)
  {
    NodeStep(search, providers, groups, g.name);
  }

  lemma MemberIsNode(search: Search, providers: map<string, Provider>, groups: seq<Group>, g: Group, m: string)
    requires Find(groups, g.name) == Some(g) && g.name !in BUILTINS && m in g.proxies && HasNode(search, providers, groups, m)
    ensures HasNode(search, providers, groups, g.name)
  {
    NodeStep(search, providers, groups, g.name);
  }

  lemma OfferedHas(search: Search, providers: map<string, Provider>, g: Group, p: string, x: string)
    requires p in g.uses && p in providers && x in PayloadNames(providers[p]) && Finds(search, g.filter, x)
    ensures x in NodesOffered(search, providers, g)
  {
  }

  /** An unfiltered group over a filled provider offers a node. */
  lemma UnfilteredOffers(search: Search, providers: map<string, Provider>, g: Group, p: string)
    requires p in g.uses && p in providers && PayloadNames(providers[p]) != {} && (g.filter.None? || g.filter.value == "")
    ensures NodesOffered(search, providers, g) != {}
  {
    var x :| x in PayloadNames(providers[p]);
    OfferedHas(search, providers, g, p, x);
  }

  /** An exact filter over names of the payload offers a node. */
  lemma ExactOffers(search: Search, providers: map<string, Provider>, g: Group, p: string, names: set<string>)
    requires p in g.uses && p in providers && names != {} && names <= PayloadNames(providers[p])
    requires g.filter == Some(ExactFilter.Text(names).value)
    ensures NodesOffered(search, providers, g) != {}
  {
    var x :| x in names;
    ExactFilter.ParseText(names);
    ExactFilter.PythonSearch(names, x);
    assert Finds(search, g.filter, x) && x in PayloadNames(providers[p]);
    OfferedHas(search, providers, g, p, x);
  }

  lemma FilledNames(provider: Provider)
    requires provider.payload.Some? && provider.payload.value != []
    ensures PayloadNames(provider) != {}
  {
    assert provider.payload.value[0] in provider.payload.value;
    assert provider.payload.value[0].name in PayloadNames(provider);
  }

  /** Providers that still hold what they held still offer it. */
  lemma OffersKept(search: Search, before: map<string, Provider>, after: map<string, Provider>, g: Group)
    requires forall p :: p in g.uses && p in before ==> p in after && PayloadNames(before[p]) <= PayloadNames(after[p])
    ensures NodesOffered(search, before, g) <= NodesOffered(search, after, g)
  {
  }

  /** Appended groups take nothing away. */
  lemma NodesGrow(search: Search, providers: map<string, Provider>, groups: seq<Group>, more: seq<Group>, n: string)
    requires HasNode(search, providers, groups, n)
    ensures HasNode(search, providers, groups + more, n)
  {
    var all := groups + more;
    forall x | x in GroupNames(groups) && IsGroup(groups, x) ensures WayKept(search, providers, groups, providers, all, GroupNames(groups), x) {
      FindAppend(groups, more, x);
      if OfferedBy(search, providers, groups, x) != {} { OfferIsNode(search, providers, all, Find(all, x).value); }
      forall m | m in Find(groups, x).value.proxies && HasNode(search, providers, groups, m) ensures m in GroupNames(groups) { NodeIsGroup(search, providers, groups, m); }
    }
    NamedFound(groups, n);
    NodeKept(search, providers, groups, providers, all, GroupNames(groups), n);
  }

  /** The groups with a node. */
  ghost function NodesIn(search: Search, providers: map<string, Provider>, groups: seq<Group>): set<string> {
    set n | n in GroupNames(groups) && HasNode(search, providers, groups, n)
  }

  lemma NodesInHas(search: Search, providers: map<string, Provider>, groups: seq<Group>, m: string)
    ensures m in NodesIn(search, providers, groups) <==> HasNode(search, providers, groups, m)
  {
    if HasNode(search, providers, groups, m) { NodeIsGroup(search, providers, groups, m); }
  }

  /** Groups with a node in one list are the same in the other. */
  ghost predicate AgreeOnNodes(search: Search, providers: map<string, Provider>, a: seq<Group>, b: seq<Group>) {
    forall x :: HasNode(search, providers, a, x) ==> SameIn(a, b, x)
  }

  ghost predicate SameIn(a: seq<Group>, b: seq<Group>, x: string) { IsGroup(a, x) && Find(b, x) == Find(a, x) }

  /** Lists that agree on the groups with a node agree on a way to it. */
  lemma NodesAgree(search: Search, providers: map<string, Provider>, a: seq<Group>, b: seq<Group>, n: string)
    requires AgreeOnNodes(search, providers, a, b) && HasNode(search, providers, a, n)
    ensures HasNode(search, providers, b, n)
  {
    var names := NodesIn(search, providers, a);
    forall m ensures m in names <==> HasNode(search, providers, a, m) { NodesInHas(search, providers, a, m); }
    forall x | x in names && IsGroup(a, x) ensures WayKept(search, providers, a, providers, b, names, x) {
      SameWay(search, providers, a, providers, b, names, x);
    }
    NodeKept(search, providers, a, providers, b, names, n);
  }
}
