/** `validate_generated_config`: structure, reference cycles, and a node behind every automatic group. */
module Validator {
  import opened Results
  import opened Routing
  import ExactFilter
  import GroupCycles

  // ----- what the leaf expansion finds -----

  /** Python's `re.search` for the filter texts outside the modelled fragment of regular expressions. */
  type Search = (string, string) -> bool

  predicate Finds(search: Search, filter: Option<string>, name: string) {
    || filter.None? || filter.value == ""
    || if ExactFilter.Parse(filter.value).Some? then ExactFilter.SearchIn(ExactFilter.Python, filter.value, name)
       else search(filter.value, name)
  }

  /** The nodes a group takes from its own providers. */
  function NodesOffered(search: Search, providers: map<string, Provider>, g: Group): set<string> {
    set p, x | p in g.uses && p in providers && x in PayloadNames(providers[p]) && Finds(search, g.filter, x) :: x
  }

  /** A node is found by following fewer than `depth` group references. */
  ghost predicate ReachesIn(search: Search, providers: map<string, Provider>, groups: seq<Group>, name: string, depth: nat)
    decreases depth
  {
    && name !in BUILTINS && depth > 0 && Find(groups, name).Some?
    && var g, d: nat := Find(groups, name).value, depth - 1;
    (NodesOffered(search, providers, g) != {} || exists m :: m in g.proxies && ReachesIn(search, providers, groups, m, d))
  }

  ghost predicate HasNode(search: Search, providers: map<string, Provider>, groups: seq<Group>, name: string) {
    exists depth: nat :: ReachesIn(search, providers, groups, name, depth)
  }

  /** One step of it. */
  lemma NodeStep(search: Search, providers: map<string, Provider>, groups: seq<Group>, name: string)
    requires name !in BUILTINS && Find(groups, name).Some?
    ensures var g := Find(groups, name).value;
            HasNode(search, providers, groups, name)
            <==> NodesOffered(search, providers, g) != {} || exists m :: m in g.proxies && HasNode(search, providers, groups, m)
  {
    var g := Find(groups, name).value;
    if HasNode(search, providers, groups, name) {
      var d: nat :| ReachesIn(search, providers, groups, name, d);
      if NodesOffered(search, providers, g) == {} {
        var m :| m in g.proxies && ReachesIn(search, providers, groups, m, d - 1);
        assert HasNode(search, providers, groups, m);
      }
    }
    if NodesOffered(search, providers, g) != {} { assert ReachesIn(search, providers, groups, name, 1); }
    if m :| m in g.proxies && HasNode(search, providers, groups, m) {
      var d: nat :| ReachesIn(search, providers, groups, m, d);
      assert ReachesIn(search, providers, groups, name, d + 1);
    }
  }

  // ----- cycles -----

  function GroupNames(groups: seq<Group>): set<string> { set g | g in groups :: g.name }

  function MemberGroups(groups: seq<Group>, name: string): set<string> {
    var g := Find(groups, name);
    if g.None? then {} else set m | m in g.value.proxies && m in GroupNames(groups) :: m
  }

  function GroupGraph(groups: seq<Group>): (g: GroupCycles.Graph)
    ensures g.Keys == GroupNames(groups) && GroupCycles.Closed(g)
  {
    map n | n in GroupNames(groups) :: MemberGroups(groups, n)
  }

  // ----- the validator -----

  /** Groups the core measures, so that they need a node. */
  predicate Measured(g: Group) { g.kind == "url-test" || g.kind == "fallback" }

  predicate EndsWith(s: string, tail: string) { |tail| <= |s| && s[|s| - |tail|..] == tail }

  /** The explicitly empty Stable tier, a REJECT behind a filter that matches nothing. */
  predicate EmptyStable(g: Group) {
    && ("__CR_BROWSING_" <= g.name || "__CR_WEB_GENERAL_" <= g.name) && EndsWith(g.name, "_STABLE_AUTO")
    && g.hidden && g.filter == Some("^$") && g.proxies == ["REJECT"]
  }

  ghost predicate Populated(search: Search, providers: map<string, Provider>, groups: seq<Group>) {
    forall g :: g in groups && Measured(g) ==> EmptyStable(g) || HasNode(search, providers, groups, g.name)
  }

  /** No reference cycle, and a node behind every measured group. */
  ghost predicate Live(search: Search, providers: map<string, Provider>, groups: seq<Group>) {
    GroupCycles.Acyclic(GroupGraph(groups)) && Populated(search, providers, groups)
  }

  ghost predicate Validated(search: Search, providers: map<string, Provider>, groups: seq<Group>, ruleProviders: map<string, RuleProvider>, rules: seq<Rule>) {
    Structured(providers, groups, ruleProviders, rules) && Live(search, providers, groups)
  }

  predicate IsGroup(groups: seq<Group>, name: string) { name !in BUILTINS && Find(groups, name).Some? }

  function OfferedBy(search: Search, providers: map<string, Provider>, groups: seq<Group>, name: string): set<string> {
    if Find(groups, name).Some? then NodesOffered(search, providers, Find(groups, name).value) else {}
  }

  /** The sets of the leaf expansion: the groups visited and the nodes collected from them. */
  datatype Expansion = Expansion(visited: set<string>, leaves: set<string>)

  /** The leaves are the nodes of the visited groups, and outside the calls in progress all their members are visited. */
  ghost predicate Expanded(search: Search, providers: map<string, Provider>, groups: seq<Group>, e: Expansion, stack: set<string>) {
    && (forall v :: v in e.visited ==> IsGroup(groups, v) && v in GroupNames(groups))
    && (forall x :: x in e.leaves <==> exists v :: v in e.visited && x in OfferedBy(search, providers, groups, v))
    && forall v, m :: v in e.visited && v !in stack && m in Find(groups, v).value.proxies && IsGroup(groups, m) ==> m in e.visited
  }

  /** A group visited since offers a node only if `name` has one. */
  ghost predicate Behind(search: Search, providers: map<string, Provider>, groups: seq<Group>, before: Expansion, e: Expansion, name: string) {
    && before.visited <= e.visited
    && forall v :: v in e.visited && v !in before.visited && OfferedBy(search, providers, groups, v) != {} ==> HasNode(search, providers, groups, name)
  }

  /** The depth-first visit of the leaf expansion. */
  method Visit(search: Search, providers: map<string, Provider>, groups: seq<Group>, e: Expansion, reference: string, ghost stack: set<string>)
    returns (r: Expansion)
    requires Expanded(search, providers, groups, e, stack)
    ensures Expanded(search, providers, groups, r, stack) && Behind(search, providers, groups, e, r, reference)
    ensures IsGroup(groups, reference) ==> reference in r.visited
    decreases GroupNames(groups) - e.visited, 0
  {
    r := e;
    if reference in BUILTINS { return; }
    var group := Find(groups, reference);
    if group.None? || reference in e.visited { return; }
    Enter(search, providers, groups, e, reference, stack);
    r := Expansion(e.visited + {reference}, e.leaves + NodesOffered(search, providers, group.value));
    r := VisitMembers(search, providers, groups, e, r, reference, group.value.proxies, stack + {reference});
    Leave(search, providers, groups, r, reference, stack);
  }

  lemma Enter(search: Search, providers: map<string, Provider>, groups: seq<Group>, e: Expansion, reference: string, stack: set<string>)
    requires Expanded(search, providers, groups, e, stack) && IsGroup(groups, reference)
    ensures var r := Expansion(e.visited + {reference}, e.leaves + OfferedBy(search, providers, groups, reference));
            Expanded(search, providers, groups, r, stack + {reference}) && Behind(search, providers, groups, e, r, reference)
  {
    NodeStep(search, providers, groups, reference);
    assert Find(groups, reference).value in groups;
  }

  /** A call ends once all members are visited. */
  lemma Leave(search: Search, providers: map<string, Provider>, groups: seq<Group>, e: Expansion, reference: string, stack: set<string>)
    requires Expanded(search, providers, groups, e, stack + {reference}) && IsGroup(groups, reference)
    requires forall m :: m in Find(groups, reference).value.proxies && IsGroup(groups, m) ==> m in e.visited
    ensures Expanded(search, providers, groups, e, stack)
  {
  }

  method VisitMembers(search: Search, providers: map<string, Provider>, groups: seq<Group>, ghost before: Expansion, e: Expansion, reference: string,
                      members: seq<string>, ghost stack: set<string>) returns (r: Expansion)
    requires Expanded(search, providers, groups, e, stack) && Behind(search, providers, groups, before, e, reference)
    requires IsGroup(groups, reference) && members == Find(groups, reference).value.proxies
    ensures Expanded(search, providers, groups, r, stack) && Behind(search, providers, groups, before, r, reference)
    ensures e.visited <= r.visited && forall m :: m in members && IsGroup(groups, m) ==> m in r.visited
    decreases GroupNames(groups) - e.visited, 1
  {
    r := e;
    for k := 0 to |members|
      invariant Expanded(search, providers, groups, r, stack) && Behind(search, providers, groups, before, r, reference)
      invariant e.visited <= r.visited
      invariant forall i :: 0 <= i < k && IsGroup(groups, members[i]) ==> members[i] in r.visited
    {
      ghost var sofar := r;
      r := Visit(search, providers, groups, r, members[k], stack);
      BehindMember(search, providers, groups, before, sofar, r, reference, members[k]);
    }
  }

  /** What is behind a member is behind the group. */
  lemma BehindMember(search: Search, providers: map<string, Provider>, groups: seq<Group>, before: Expansion, sofar: Expansion, e: Expansion,
                     reference: string, member: string)
    requires Behind(search, providers, groups, before, sofar, reference) && Behind(search, providers, groups, sofar, e, member)
    requires IsGroup(groups, reference) && member in Find(groups, reference).value.proxies
    ensures Behind(search, providers, groups, before, e, reference)
  {
    NodeStep(search, providers, groups, reference);
  }

  /** Among visited groups closed under their members a node is found only at one that offers it. */
  lemma {:induction false} ClosedReach(search: Search, providers: map<string, Provider>, groups: seq<Group>, visited: set<string>, name: string, depth: nat)
    requires name in visited && ReachesIn(search, providers, groups, name, depth)
    requires forall v, m :: v in visited && Find(groups, v).Some? && m in Find(groups, v).value.proxies && m !in BUILTINS && Find(groups, m).Some?
                            ==> m in visited
    ensures exists v :: v in visited && OfferedBy(search, providers, groups, v) != {}
    decreases depth
  {
    var g := Find(groups, name).value;
    if NodesOffered(search, providers, g) == {} {
      var m :| m in g.proxies && ReachesIn(search, providers, groups, m, depth - 1);
      ClosedReach(search, providers, groups, visited, m, depth - 1);
    }
  }

  /** `effective_leaf_proxies`, asked only whether there is one. */
  method ExpandsToNode(search: Search, providers: map<string, Provider>, groups: seq<Group>, target: string) returns (found: bool)
    ensures found <==> HasNode(search, providers, groups, target)
  {
    var e := Visit(search, providers, groups, Expansion({}, {}), target, {});
    found := e.leaves != {};
    FoundExactly(search, providers, groups, e, target);
  }

  lemma FoundExactly(search: Search, providers: map<string, Provider>, groups: seq<Group>, e: Expansion, target: string)
    requires Expanded(search, providers, groups, e, {}) && Behind(search, providers, groups, Expansion({}, {}), e, target)
    requires IsGroup(groups, target) ==> target in e.visited
    ensures e.leaves != {} <==> HasNode(search, providers, groups, target)
  {
    if HasNode(search, providers, groups, target) {
      var depth: nat :| ReachesIn(search, providers, groups, target, depth);
      ClosedReach(search, providers, groups, e.visited, target, depth);
      var v :| v in e.visited && OfferedBy(search, providers, groups, v) != {};
      var x :| x in OfferedBy(search, providers, groups, v);
      assert x in e.leaves;
    }
    if x :| x in e.leaves {
      var v :| v in e.visited && x in OfferedBy(search, providers, groups, v);
    }
  }

  /** The validator itself. */
  method ValidateGenerated(search: Search, providers: map<string, Provider>, groups: seq<Group>, ruleProviders: map<string, RuleProvider>, rules: seq<Rule>)
    returns (valid: bool)
    ensures valid <==> Validated(search, providers, groups, ruleProviders, rules)
  {
    if !Structured(providers, groups, ruleProviders, rules) { return false; }
    for k := 0 to |groups|
      invariant forall i :: 0 <= i < k && Measured(groups[i]) ==> EmptyStable(groups[i]) || HasNode(search, providers, groups, groups[i].name)
    {
      if Measured(groups[k]) && !EmptyStable(groups[k]) {
        var found := ExpandsToNode(search, providers, groups, groups[k].name);
        if !found { return false; }
      }
    }
    valid := GroupCycles.CheckCycles(GroupGraph(groups));
  }
}
