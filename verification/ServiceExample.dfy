/** A candidate with one AI country meets everything the service rewrite asks for. */
module ServiceExample {
  import opened Results
  import opened Routing
  import opened Validator
  import opened GroupLiveness
  import GroupCycles
  import opened AiPruning
  import opened ServiceQualification
  import opened ServiceRewrite
  import opened ServiceWiring
  import opened ServiceBlocks
  import opened ServiceReady
  import opened ServiceRules

  function Anchor(a: string, p: string): Group { Group(a, "url-test", true, [p], [], None, map k | k in PROBE_KEYS :: "") }

  /** The public country group shows the provider's nodes for manual choice, too. */
  function Country(w: string, a: string, p: string): Group { Group(w, "select", false, [p], [a], None, map[]) }

  function Policy(w: string): Group { Group(AI_GROUP, "select", false, [], [w], None, map[]) }

  function Groups(p: string, a: string, w: string): seq<Group> { [Anchor(a, p), Country(w, a, p), Policy(w)] }

  function Providers(p: string, x: Proxy): map<string, Provider> { map[p := Provider("inline", map[], Some([x]), map[])] }

  function Lists(): map<string, RuleProvider> { map[ACL_AI := Inline(CLAUDE_RULES + GEMINI_RULES), ACL_OPENAI := Inline([])] }

  function Rules(): seq<Rule> { [RuleSet(ACL_AI, AI_GROUP), RuleSet(ACL_OPENAI, AI_GROUP), Rule("MATCH", "", AI_GROUP, [])] }

  predicate Apart(p: string, a: string, w: string) {
    AI_PREFIX <= p && a !in BUILTINS && w !in BUILTINS && a != w && a != AI_GROUP && w != AI_GROUP && a !in CountryNames()
  }

  lemma Found(p: string, a: string, w: string)
    requires Apart(p, a, w)
    ensures UniqueNames(Groups(p, a, w)) && PolicyIndex(Groups(p, a, w)) == 2 && PolicyMembers(Groups(p, a, w)) == [w]
    ensures Find(Groups(p, a, w), a) == FindLast(Groups(p, a, w), a) == Some(Anchor(a, p))
    ensures Find(Groups(p, a, w), w) == FindLast(Groups(p, a, w), w) == Some(Country(w, a, p))
    ensures Find(Groups(p, a, w), AI_GROUP).Some?
  {
    var groups := Groups(p, a, w);
    FindUnique(groups, 0);
    FindUnique(groups, 1);
    FindUnique(groups, 2);
    FindLastUnique(groups, 0);
    FindLastUnique(groups, 1);
    PolicyThird(groups);
  }

  lemma PolicyThird(groups: seq<Group>)
    requires |groups| == 3 && groups[0].name != AI_GROUP && groups[1].name != AI_GROUP && groups[2].name == AI_GROUP && !groups[2].hidden
    ensures PolicyIndex(groups) == 2
  {
    assert PolicyIndex(groups) == 1 + PolicyIndex(groups[1..]);
    assert PolicyIndex(groups[1..]) == 1 + PolicyIndex(groups[1..][1..]);
  }

  lemma RoutesFound(p: string, a: string, w: string)
    requires Apart(p, a, w)
    ensures AnchorOf(Groups(p, a, w), p) == Some(a) && WrapperOf(Groups(p, a, w), a) == Some(w)
  {
    var groups := Groups(p, a, w);
    assert Anchor(a, p) in groups && Country(w, a, p) in groups;
  }

  lemma Singles(p: string, a: string, w: string, m: string)
    requires Apart(p, a, w)
    ensures Single(Groups(p, a, w), [w], m) <==> m == w
    ensures AnchorOfMember(Groups(p, a, w), w) == a
  {
    Found(p, a, w);
  }

  lemma Using(p: string, a: string, w: string)
    ensures UsingGroups(Groups(p, a, w), {p}) == {a, w}
  {
    var groups := Groups(p, a, w);
    assert groups[0] in groups && UsesAny(groups[0], {p}) && groups[1] in groups && UsesAny(groups[1], {p});
    assert !UsesAny(groups[2], {p});
  }

  lemma WiredUp(p: string, a: string, w: string)
    requires Apart(p, a, w)
    ensures Wired(Groups(p, a, w), [w], {p})
  {
    var groups := Groups(p, a, w);
    Using(p, a, w);
    forall m ensures Single(groups, [w], m) <==> m == w { Singles(p, a, w, m); }
    Singles(p, a, w, w);
    assert groups[0] in groups && groups[0].name == a && p in groups[0].uses;
  }

  lemma NotCountry()
    ensures AI_GROUP !in CountryNames()
  {
    assert forall r :: r in REGIONS ==> REGIONS[r][0] == 'A';
    assert AI_GROUP[0] != 'A';
  }

  lemma OneProvider(p: string, x: Proxy)
    requires AI_PREFIX <= p
    ensures AiProviders(Providers(p, x)) == {p}
  {
  }

  lemma OneShape(p: string, a: string, w: string, x: Proxy)
    requires Apart(p, a, w)
    ensures GeneratorShape(Providers(p, x), Groups(p, a, w))
  {
    Found(p, a, w);
    RoutesFound(p, a, w);
    OneProvider(p, x);
  }

  lemma OneUsed(p: string, a: string, w: string)
    requires Apart(p, a, w)
    ensures HasRoute(Groups(p, a, w), p) && UsedOnRoute(Groups(p, a, w), p) && Cloneable(Anchor(a, p))
  {
    RoutesFound(p, a, w);
  }

  lemma OneRoute(p: string, a: string, w: string, x: Proxy)
    requires Apart(p, a, w)
    ensures Routable(Providers(p, x), Groups(p, a, w))
  {
    Found(p, a, w);
    RoutesFound(p, a, w);
    OneShape(p, a, w, x);
    OneUsed(p, a, w);
    OneProvider(p, x);
  }

  lemma OneRemovable(p: string, a: string, w: string)
    requires Apart(p, a, w)
    ensures Removable(Groups(p, a, w), {p}) == {a, w}
  {
    Found(p, a, w);
    Using(p, a, w);
    Singles(p, a, w, w);
    forall m ensures Single(Groups(p, a, w), [w], m) <==> m == w { Singles(p, a, w, m); }
  }

  lemma OneNamed(p: string, a: string, w: string)
    requires Apart(p, a, w)
    ensures NamedCountries(Groups(p, a, w), [w])
  {
    NotCountry();
    Singles(p, a, w, w);
  }

  lemma NoBuiltin(p: string, a: string, w: string)
    requires Apart(p, a, w)
    ensures forall b :: b in BUILTINS ==> Find(Groups(p, a, w), b).None?
  {
    PolicyNoBuiltin();
    forall b, g | b in BUILTINS && g in Groups(p, a, w) ensures g.name != b {}
  }

  lemma PolicyNoBuiltin()
    ensures AI_GROUP !in BUILTINS
  {
  }

  lemma OneCountry(p: string, a: string, w: string, x: Proxy)
    requires Apart(p, a, w)
    ensures GroupsReady(Providers(p, x), Groups(p, a, w))
  {
    Found(p, a, w);
    OneProvider(p, x);
    OneRoute(p, a, w, x);
    WiredUp(p, a, w);
    OneNamed(p, a, w);
    NoBuiltin(p, a, w);
  }

  /** Anchor, country, policy: each refers only to the one before. */
  lemma OneAcyclic(p: string, a: string, w: string)
    requires Apart(p, a, w)
    ensures GroupCycles.Acyclic(GroupGraph(Groups(p, a, w)))
  {
    Found(p, a, w);
    var groups, order := Groups(p, a, w), [a, w, AI_GROUP];
    assert groups[0] in groups && groups[1] in groups && groups[2] in groups;
    assert GroupNames(groups) == {a, w, AI_GROUP};
    assert MemberGroups(groups, a) == {} && MemberGroups(groups, w) == {a};
    PolicyFound(p, a, w);
    assert MemberGroups(groups, AI_GROUP) == {w};
    OneOrder(GroupGraph(groups), a, w, AI_GROUP);
  }

  lemma PolicyFound(p: string, a: string, w: string)
    requires Apart(p, a, w)
    ensures Find(Groups(p, a, w), AI_GROUP) == Some(Policy(w))
  {
    Found(p, a, w);
    FindUnique(Groups(p, a, w), 2);
  }

  lemma OneOrder(g: GroupCycles.Graph, a: string, w: string, c: string)
    requires a != w && a != c && w != c && g == map[a := {}, w := {a}, c := {w}] && GroupCycles.Closed(g)
    ensures GroupCycles.Acyclic(g)
  {
    var order := [a, w, c];
    assert order[..1] == [a] && order[..2] == [a, w];
    GroupCycles.TopologicalIsAcyclic(g, order);
  }

  lemma OneLive(search: Search, p: string, a: string, w: string, x: Proxy)
    requires Apart(p, a, w)
    ensures Live(search, Providers(p, x), Groups(p, a, w))
  {
    Found(p, a, w);
    OneAcyclic(p, a, w);
    FilledNames(Providers(p, x)[p]);
    assert p in Anchor(a, p).uses;
    UnfilteredOffers(search, Providers(p, x), Anchor(a, p), p);
    OfferIsNode(search, Providers(p, x), Groups(p, a, w), Anchor(a, p));
  }

  lemma ListsReviewed()
    ensures Rewritable(Lists(), Rules())
  {
    var rules := Rules();
    DifferentLists(rules[0]);
    DifferentLists(rules[1]);
    assert Cut(rules, ACL_AI) == 0;
    assert Cut(rules[1..], ACL_OPENAI) == 0 && Cut(rules, ACL_OPENAI) == 1;
  }

  lemma OneStructured(p: string, a: string, w: string, x: Proxy)
    requires Apart(p, a, w)
    ensures Structured(Providers(p, x), Groups(p, a, w), Lists(), Rules())
  {
    Found(p, a, w);
    OneResolved(p, a, w);
    OneRules(Groups(p, a, w));
  }

  lemma OneResolved(p: string, a: string, w: string)
    requires Apart(p, a, w)
    ensures Resolved(Groups(p, a, w))
  {
    Found(p, a, w);
    assert Defined(Groups(p, a, w), a) && Defined(Groups(p, a, w), w);
  }

  lemma OneRules(groups: seq<Group>)
    requires Defined(groups, AI_GROUP)
    ensures ListsKnown(Lists(), Rules()) && Targeted(groups, Rules()) && NoDuplicateRules(Rules()) && EndsInMatch(Rules())
  {
    assert Rules()[0].value[8] != Rules()[1].value[8];
  }

  lemma RulesOnPolicy(removable: set<string>)
    requires AI_GROUP !in removable
    ensures RulesApart(Rules(), removable)
  {
    assert forall r :: r in Rules() ==> r.target == AI_GROUP;
  }

  lemma OneApart(p: string, a: string, w: string)
    requires Apart(p, a, w)
    ensures RulesApart(Rules(), Removable(Groups(p, a, w), {p}))
  {
    OneRemovable(p, a, w);
    RulesOnPolicy({a, w});
  }

  lemma OneNames(p: string, a: string, w: string, x: Proxy, digest: string -> string)
    requires Apart(p, a, w) && NamesFree(Groups(p, a, w), {OpenAi, Claude, Gemini}, {p}, digest)
    ensures NamesReady(Providers(p, x), Groups(p, a, w), digest) && RulesApart(Rules(), Removable(Groups(p, a, w), AiProviders(Providers(p, x))))
  {
    OneProvider(p, x);
    OneApart(p, a, w);
  }

  /** With free names for the clones, the candidate is ready. */
  lemma OneReady(search: Search, p: string, a: string, w: string, x: Proxy, digest: string -> string)
    requires Apart(p, a, w) && NamesFree(Groups(p, a, w), {OpenAi, Claude, Gemini}, {p}, digest)
    ensures Ready(search, Providers(p, x), Groups(p, a, w), Lists(), Rules(), digest)
  {
    OneNames(p, a, w, x, digest);
    OneCountry(p, a, w, x);
    OneStructured(p, a, w, x);
    OneLive(search, p, a, w, x);
  }

  lemma OneClosing(p: string, a: string, w: string)
    requires Apart(p, a, w)
    ensures a in Closing(Groups(p, a, w), {p})
  {
    RoutesFound(p, a, w);
  }

  lemma OneMeasured(p: string, a: string, w: string, g: Group)
    requires Apart(p, a, w) && g in PolicyRejecting(Groups(p, a, w)) && Measured(g)
    ensures g.name == a
  {
    Found(p, a, w);
  }

  /** The only measured group goes when the inventory is closed. */
  lemma OneStandsAlone(search: Search, p: string, a: string, w: string, x: Proxy)
    requires Apart(p, a, w)
    ensures StandsAlone(search, Providers(p, x), Groups(p, a, w))
  {
    OneProvider(p, x);
    OneClosing(p, a, w);
    forall g | g in PolicyRejecting(Groups(p, a, w)) && Measured(g) ensures g.name == a { OneMeasured(p, a, w, g); }
  }

  lemma CandidateName(p: string, x: Proxy)
    requires AI_PREFIX <= p
    ensures x.name in CandidateNames(Providers(p, x))
  {
    OneProvider(p, x);
    assert x.name in PayloadNames(Providers(p, x)[p]);
  }

  /** Any verdict on its node is acceptable. */
  lemma OneAcceptable(search: Search, p: string, a: string, w: string, x: Proxy, qualified: map<Service, set<string>>)
    requires Apart(p, a, w) && Probed(qualified) && Union(qualified) <= {x.name}
    ensures Acceptable(search, Providers(p, x), Groups(p, a, w), Lists(), Rules(), qualified, None)
  {
    CandidateName(p, x);
    ListsReviewed();
    OneStandsAlone(search, p, a, w, x);
  }
}
