/** How the AI country groups hang together, and why removing some of them leaves no reference behind. */
module ServiceWiring {
  import opened Results
  import opened Routing
  import opened AiPruning
  import opened ServiceRewrite

  /** A policy member that itself has one member: a country group. */
  predicate Single(groups: seq<Group>, policy: seq<string>, name: string) {
    var g := FindLast(groups, name);
    name in policy && name != "DIRECT" && g.Some? && |g.value.proxies| == 1
  }

  /** Groups over an AI provider are country groups, or listed by country groups only. */
  ghost predicate UsersWired(groups: seq<Group>, policy: seq<string>, ai: set<string>) {
    forall g, m :: g in groups && m in g.proxies && m in UsingGroups(groups, ai) ==> Single(groups, policy, g.name) || Single(groups, policy, m)
  }

  /** Country groups are listed by the policy alone. */
  ghost predicate CountriesWired(groups: seq<Group>, policy: seq<string>) {
    forall g, m :: g in groups && m in g.proxies && Single(groups, policy, m) ==> g.name == AI_GROUP
  }

  /** What a country group refers to is listed by it alone. */
  ghost predicate AnchorsWired(groups: seq<Group>, policy: seq<string>) {
    forall g, w :: g in groups && Single(groups, policy, w) && AnchorOfMember(groups, w) in g.proxies && AnchorOfMember(groups, w) !in BUILTINS
                   ==> g.name == w
  }

  /** A country group shows no AI provider its anchor does not use. */
  ghost predicate ProvidersShown(groups: seq<Group>, policy: seq<string>, ai: set<string>) {
    forall g, p :: g in groups && Single(groups, policy, g.name) && p in g.uses && p in ai ==>
      exists h :: h in groups && h.name == AnchorOfMember(groups, g.name) && p in h.uses
  }

  ghost predicate Wired(groups: seq<Group>, policy: seq<string>, ai: set<string>) {
    && UsersWired(groups, policy, ai) && CountriesWired(groups, policy)
    && AnchorsWired(groups, policy) && ProvidersShown(groups, policy, ai)
  }

  function PolicyMembers(groups: seq<Group>): seq<string> {
    var i := PolicyIndex(groups);
    if i < |groups| then groups[i].proxies else []
  }

  /** What the pruning removes. */
  function Gone(groups: seq<Group>, emptied: set<string>): set<string> {
    RemovedGroups(groups, UsingGroups(groups, emptied), PolicyMembers(groups))
  }

  function GonePublic(groups: seq<Group>, emptied: set<string>): set<string> {
    RemovedPublic(groups, UsingGroups(groups, emptied), PolicyMembers(groups))
  }

  /** Where a group of the pruned list comes from. */
  lemma PrunedOrigin(groups: seq<Group>, emptied: set<string>, g: Group) returns (h: Group)
    requires UniqueNames(groups) && PolicyIndex(groups) < |groups| && g in PrunedGroups(groups, emptied)
    ensures h in groups && h.name == g.name && g.name !in Gone(groups, emptied) && g == h.(proxies := g.proxies)
    ensures h.name == AI_GROUP ==> h == groups[PolicyIndex(groups)] && g.proxies == KeepMembers(h.proxies, GonePublic(groups, emptied))
    ensures h.name != AI_GROUP ==> g == h
  {
    var pi := PolicyIndex(groups);
    var updated := groups[pi := groups[pi].(proxies := KeepMembers(groups[pi].proxies, GonePublic(groups, emptied)))];
    var k :| 0 <= k < |updated| && updated[k] == g;
    h := groups[k];
    if k != pi { assert groups[k].name != groups[pi].name; }
  }

  /** A group whose name stays has its successor there. */
  lemma PrunedImage(groups: seq<Group>, emptied: set<string>, h: Group) returns (g: Group)
    requires UniqueNames(groups) && PolicyIndex(groups) < |groups| && h in groups && h.name !in Gone(groups, emptied)
    ensures g in PrunedGroups(groups, emptied) && g == h.(proxies := g.proxies)
    ensures Find(PrunedGroups(groups, emptied), h.name) == Some(g)
    ensures h.name != AI_GROUP ==> g == h
    ensures h == groups[PolicyIndex(groups)] ==> g.proxies == KeepMembers(h.proxies, GonePublic(groups, emptied))
  {
    var pi := PolicyIndex(groups);
    var updated := groups[pi := groups[pi].(proxies := KeepMembers(groups[pi].proxies, GonePublic(groups, emptied)))];
    var k :| 0 <= k < |groups| && groups[k] == h;
    g := updated[k];
    assert g in updated;
    if k != pi { assert groups[k].name != groups[pi].name; }
    PrunedUnique(groups, emptied);
    SameName(PrunedGroups(groups, emptied), g, g);
  }

  /** A country group over an emptied provider is doomed: its anchor is over the same provider. */
  lemma UserDoomed(groups: seq<Group>, ai: set<string>, emptied: set<string>, m: string)
    requires UniqueNames(groups) && emptied <= ai && ProvidersShown(groups, PolicyMembers(groups), ai)
    requires Single(groups, PolicyMembers(groups), m) && m in UsingGroups(groups, emptied)
    ensures m in GonePublic(groups, emptied)
  {
    var g :| g in groups && UsesAny(g, emptied) && g.name == m;
    var p :| p in g.uses && p in emptied;
    var h :| h in groups && h.name == AnchorOfMember(groups, m) && p in h.uses;
    assert UsesAny(h, emptied);
  }

  lemma PublicSingle(groups: seq<Group>, emptied: set<string>, x: string)
    requires x in GonePublic(groups, emptied)
    ensures Single(groups, PolicyMembers(groups), x)
  {
  }

  lemma UserUnlisted(groups: seq<Group>, ai: set<string>, emptied: set<string>, h: Group, m: string)
    requires UniqueNames(groups) && emptied <= ai && Wired(groups, PolicyMembers(groups), ai)
    requires h in groups && m in h.proxies && m in UsingGroups(groups, emptied)
    ensures h.name in GonePublic(groups, emptied) || m in GonePublic(groups, emptied)
  {
    UsingGrows(groups, emptied, ai);
    if Single(groups, PolicyMembers(groups), m) {
      UserDoomed(groups, ai, emptied, m);
    } else {
      SingleListing(groups, PolicyMembers(groups), h, m);
      assert Doomed(groups, UsingGroups(groups, emptied), h.name);
    }
  }

  lemma SingleListing(groups: seq<Group>, policy: seq<string>, h: Group, m: string)
    requires UniqueNames(groups) && h in groups && m in h.proxies && Single(groups, policy, h.name)
    ensures FindLast(groups, h.name) == Some(h) && h.proxies == [m] && AnchorOfMember(groups, h.name) == m
  {
    var k :| 0 <= k < |groups| && groups[k] == h;
    FindLastUnique(groups, k);
  }

  /** Whatever refers to a removed group is removed, or is the policy dropping the reference. */
  lemma ReferenceStays(groups: seq<Group>, ai: set<string>, emptied: set<string>, h: Group, m: string)
    requires UniqueNames(groups) && emptied <= ai && Wired(groups, PolicyMembers(groups), ai)
    requires h in groups && h.name !in Gone(groups, emptied) && m in h.proxies && m !in BUILTINS
    requires h.name == AI_GROUP ==> m !in GonePublic(groups, emptied)
    ensures m !in Gone(groups, emptied)
  {
    if m in GonePublic(groups, emptied) { PublicSingle(groups, emptied, m); }
    if m in UsingGroups(groups, emptied) { UserUnlisted(groups, ai, emptied, h, m); }
    if w :| w in GonePublic(groups, emptied) && AnchorOfMember(groups, w) == m { PublicSingle(groups, emptied, w); }
  }

  lemma UsingGrows(groups: seq<Group>, emptied: set<string>, ai: set<string>)
    requires emptied <= ai
    ensures UsingGroups(groups, emptied) <= UsingGroups(groups, ai)
  {
    forall g | g in groups && UsesAny(g, emptied) ensures UsesAny(g, ai) {
      var p :| p in g.uses && p in emptied;
    }
  }

  /** Pruning leaves no reference to a removed group. */
  lemma PrunedResolved(groups: seq<Group>, ai: set<string>, emptied: set<string>)
    requires UniqueNames(groups) && Resolved(groups) && PolicyIndex(groups) < |groups|
    requires emptied <= ai && Wired(groups, PolicyMembers(groups), ai)
    ensures Resolved(PrunedGroups(groups, emptied))
  {
    var after := PrunedGroups(groups, emptied);
    forall g, m | g in after && m in g.proxies ensures Defined(after, m) {
      var h := PrunedOrigin(groups, emptied, g);
      assert m in h.proxies && Defined(groups, m);
      if m !in BUILTINS {
        ReferenceStays(groups, ai, emptied, h, m);
        var x := PrunedImage(groups, emptied, Find(groups, m).value);
      }
    }
  }
}
