/**
 The routing configuration: inline proxy providers, proxy groups, rule providers and a first-match
 rule list, with the two meanings every rewrite is judged by. `IsLeaf` says which nodes or builtins a
 group reaches; `Decision` says which target a rule list gives a connection.
 */
module Routing {
  import opened Results
  import opened Sifting
  import ExactFilter

  const BUILTINS: set<string> := {"DIRECT", "REJECT", "PASS", "COMPATIBLE"}

  /** The public policy group for AI traffic. */
  const AI_GROUP := "人工智能"

  datatype Proxy = Proxy(name: string, settings: string)

  /** `payload` is `None` when the document carries no list there. `rest` holds every other key. */
  datatype Provider = Provider(kind: string, healthCheck: map<string, string>, payload: Option<seq<Proxy>>, rest: map<string, string>)

  /** Absent `use` and `proxies` lists are empty. `test` holds url, interval, timeout and the like. */
  datatype Group = Group(name: string, kind: string, hidden: bool, uses: seq<string>, proxies: seq<string>,
                         filter: Option<string>, test: map<string, string>)

  /** One classical condition, such as DOMAIN-SUFFIX,claude.ai. */
  datatype Classifier = Classifier(kind: string, value: string)

  datatype RuleProvider = RuleProvider(kind: string, behavior: string, payload: seq<Classifier>)

  /** A rendered rule; RULE-SET rules carry the provider name as their value. */
  datatype Rule = Rule(kind: string, value: string, target: string, options: seq<string>)

  class Config {
    var providers: map<string, Provider>
    var groups: seq<Group>
    var ruleProviders: map<string, RuleProvider>
    var rules: seq<Rule>

    constructor (providers: map<string, Provider>, groups: seq<Group>, ruleProviders: map<string, RuleProvider>, rules: seq<Rule>)
      ensures this.providers == providers && this.groups == groups
      ensures this.ruleProviders == ruleProviders && this.rules == rules
    {
      this.providers, this.groups, this.ruleProviders, this.rules := providers, groups, ruleProviders, rules;
    }
  }

  // ----- groups -----

  /** The members outside `removed`. */
  function KeepMembers(members: seq<string>, removed: set<string>): (r: seq<string>)
    ensures forall m :: m in r <==> m in members && m !in removed
  {
    if members == [] then []
    else if members[0] in removed then KeepMembers(members[1..], removed)
    else [members[0]] + KeepMembers(members[1..], removed)
  }

  lemma {:induction false} MembersInOrder(members: seq<string>, removed: set<string>)
    ensures Sifted(members, (m: string) => m !in removed, KeepMembers(members, removed))
  {
    var keep := (m: string) => m !in removed;
    if members == [] {
      SiftedEmpty(keep);
    } else {
      MembersInOrder(members[1..], removed);
      SiftedCons(members[0], members[1..], keep, KeepMembers(members[1..], removed));
      assert members == [members[0]] + members[1..];
    }
  }

  lemma KeepAll(members: seq<string>, removed: set<string>)
    requires forall m :: m in members ==> m !in removed
    ensures KeepMembers(members, removed) == members
  {
  }

  lemma {:induction false} KeepTwice(members: seq<string>, a: set<string>, b: set<string>)
    ensures KeepMembers(KeepMembers(members, a), b) == KeepMembers(members, a + b)
  {
    if members != [] {
      KeepTwice(members[1..], a, b);
      if members[0] !in a { assert ([members[0]] + KeepMembers(members[1..], a))[1..] == KeepMembers(members[1..], a); }
    }
  }

  /** The first group of that name. */
  function Find(groups: seq<Group>, name: string): (g: Option<Group>)
    ensures g.Some? ==> g.value in groups && g.value.name == name
    ensures g.None? <==> forall h :: h in groups ==> h.name != name
  {
    if groups == [] then None
    else if groups[0].name == name then Some(groups[0])
    else Find(groups[1..], name)
  }

  predicate UniqueNames(groups: seq<Group>) {
    forall i, j :: 0 <= i < j < |groups| ==> groups[i].name != groups[j].name
  }

  lemma {:induction false} FindUnique(groups: seq<Group>, i: nat)
    requires UniqueNames(groups) && i < |groups|
    ensures Find(groups, groups[i].name) == Some(groups[i])
  {
    if i > 0 { FindUnique(groups[1..], i - 1); }
  }

  lemma {:induction false} FindAppend(a: seq<Group>, b: seq<Group>, name: string)
    ensures Find(a + b, name) == if Find(a, name).Some? then Find(a, name) else Find(b, name)
  {
    if a == [] {
      assert a + b == b;
    } else {
      assert (a + b)[1..] == a[1..] + b;
      FindAppend(a[1..], b, name);
    }
  }

  /** A dictionary built over the groups keeps the last one of a name. */
  function FindLast(groups: seq<Group>, name: string): (g: Option<Group>)
    ensures g.Some? ==> g.value in groups && g.value.name == name
  {
    if groups == [] then None
    else if groups[|groups| - 1].name == name then Some(groups[|groups| - 1])
    else FindLast(groups[..|groups| - 1], name)
  }

  lemma {:induction false} FindLastUnique(groups: seq<Group>, i: nat)
    requires UniqueNames(groups) && i < |groups|
    ensures FindLast(groups, groups[i].name) == Some(groups[i])
  {
    if i < |groups| - 1 { FindLastUnique(groups[..|groups| - 1], i); }
  }

  /** The first group of the name. */
  lemma {:induction false} FindIsFirst(groups: seq<Group>, i: nat)
    requires i < |groups| && forall j :: 0 <= j < i ==> groups[j].name != groups[i].name
    ensures Find(groups, groups[i].name) == Some(groups[i])
  {
    if i > 0 {
      assert groups[0].name != groups[i].name && groups[1..][i - 1] == groups[i];
      FindIsFirst(groups[1..], i - 1);
    }
  }

  /** The last group of the name, the one a Python dictionary by name holds. */
  lemma {:induction false} FindIsLast(groups: seq<Group>, i: nat)
    requires i < |groups| && forall j :: i < j < |groups| ==> groups[j].name != groups[i].name
    ensures FindLast(groups, groups[i].name) == Some(groups[i])
  {
    var k := |groups| - 1;
    if i < k {
      assert groups[k].name != groups[i].name && groups[..k][i] == groups[i];
      FindIsLast(groups[..k], i);
    }
  }

  lemma FindLastSnoc(groups: seq<Group>, g: Group, name: string)
    ensures FindLast(groups + [g], name) == if g.name == name then Some(g) else FindLast(groups, name)
  {
    assert (groups + [g])[..|groups|] == groups;
  }

  // ----- what a group reaches -----

  datatype Leaf = Node(name: string) | Builtin(name: string)

  ghost predicate Admits(filter: Option<string>, name: string) {
    filter.None? || filter.value == "" || ExactFilter.SearchIn(ExactFilter.Re2, filter.value, name)
  }

  function PayloadNames(provider: Provider): (names: set<string>) {
    if provider.payload.None? then {} else set p | p in provider.payload.value :: p.name
  }

  /** The proxies of a payload with one of these names. */
  function KeptProxies(payload: seq<Proxy>, names: set<string>): (r: seq<Proxy>)
    ensures forall p :: p in r <==> p in payload && p.name in names
  {
    if payload == [] then []
    else
      var n := |payload| - 1;
      assert payload == payload[..n] + [payload[n]];
      KeptProxies(payload[..n], names) + if payload[n].name in names then [payload[n]] else []
  }

  lemma {:induction false} ProxiesInOrder(payload: seq<Proxy>, names: set<string>)
    ensures Sifted(payload, (p: Proxy) => p.name in names, KeptProxies(payload, names))
  {
    var keep := (p: Proxy) => p.name in names;
    if payload == [] {
      SiftedEmpty(keep);
    } else {
      var n := |payload| - 1;
      assert payload == payload[..n] + [payload[n]];
      ProxiesInOrder(payload[..n], names);
      SiftedSnoc(payload[..n], payload[n], keep, KeptProxies(payload[..n], names));
    }
  }

  ghost function ProviderLeaves(providers: map<string, Provider>, g: Group): set<Leaf> {
    set p, x | p in g.uses && p in providers && x in PayloadNames(providers[p]) && Admits(g.filter, x) :: Node(x)
  }

  /** Leaves found by following at most `depth` group references. */
  ghost function LeavesWithin(providers: map<string, Provider>, groups: seq<Group>, name: string, depth: nat): set<Leaf>
    decreases depth
  {
    if name in BUILTINS then {Builtin(name)}
    else
      var g := Find(groups, name);
      if g.None? || depth == 0 then {}
      else
        var d: nat := depth - 1;
        ProviderLeaves(providers, g.value) + set m, l | m in g.value.proxies && l in LeavesWithin(providers, groups, m, d) :: l
  }

  ghost predicate IsLeaf(providers: map<string, Provider>, groups: seq<Group>, name: string, leaf: Leaf) {
    exists depth: nat :: leaf in LeavesWithin(providers, groups, name, depth)
  }

  lemma {:induction false} LeavesGrow(providers: map<string, Provider>, groups: seq<Group>, name: string, d: nat, e: nat)
    requires d <= e
    ensures LeavesWithin(providers, groups, name, d) <= LeavesWithin(providers, groups, name, e)
    decreases d
  {
    var g := Find(groups, name);
    if name !in BUILTINS && g.Some? && d > 0 {
      forall m | m in g.value.proxies { LeavesGrow(providers, groups, m, d - 1, e - 1); }
    }
  }

  /** A group without group references reaches exactly what its providers offer. */
  lemma ProviderOnlyLeaves(providers: map<string, Provider>, groups: seq<Group>, name: string, leaf: Leaf)
    requires name !in BUILTINS && Find(groups, name).Some? && Find(groups, name).value.proxies == []
    ensures IsLeaf(providers, groups, name, leaf) <==> leaf in ProviderLeaves(providers, Find(groups, name).value)
  {
    assert leaf in LeavesWithin(providers, groups, name, 1) <==> leaf in ProviderLeaves(providers, Find(groups, name).value);
  }

  /** One step of reachability: a group's leaves are its providers' and its members'. */
  lemma LeafStep(providers: map<string, Provider>, groups: seq<Group>, name: string, leaf: Leaf)
    requires name !in BUILTINS && Find(groups, name).Some?
    ensures IsLeaf(providers, groups, name, leaf)
            <==> leaf in ProviderLeaves(providers, Find(groups, name).value)
                 || exists m :: m in Find(groups, name).value.proxies && IsLeaf(providers, groups, m, leaf)
  {
    var g := Find(groups, name).value;
    if IsLeaf(providers, groups, name, leaf) {
      var d: nat :| leaf in LeavesWithin(providers, groups, name, d);
      if leaf !in ProviderLeaves(providers, g) {
        var m :| m in g.proxies && leaf in LeavesWithin(providers, groups, m, d - 1);
        assert IsLeaf(providers, groups, m, leaf);
      }
    }
    if leaf in ProviderLeaves(providers, g) {
      assert leaf in LeavesWithin(providers, groups, name, 1);
    }
    if m :| m in g.proxies && IsLeaf(providers, groups, m, leaf) {
      var d: nat :| leaf in LeavesWithin(providers, groups, m, d);
      assert leaf in LeavesWithin(providers, groups, name, d + 1);
    }
  }

  lemma BuiltinLeaf(providers: map<string, Provider>, groups: seq<Group>, name: string, leaf: Leaf)
    requires name in BUILTINS
    ensures IsLeaf(providers, groups, name, leaf) <==> leaf == Builtin(name)
  {
    assert LeavesWithin(providers, groups, name, 0) == {Builtin(name)};
  }

  // ----- what a rule list decides -----

  /** The conditions a connection satisfies, and whether it is UDP. */
  datatype Connection = Connection(udp: bool, traits: iset<Classifier>)

  ghost predicate Hits(ruleProviders: map<string, RuleProvider>, provider: string, c: Connection) {
    provider in ruleProviders && exists k :: k in ruleProviders[provider].payload && k in c.traits
  }

  ghost predicate RuleMatches(ruleProviders: map<string, RuleProvider>, r: Rule, c: Connection) {
    if r.kind == "MATCH" then true
    else if r.kind == "RULE-SET" then Hits(ruleProviders, r.value, c)
    else Classifier(r.kind, r.value) in c.traits
  }

  /**
   A matching rule decides the connection unless its target cannot carry UDP, in which case the core
   goes on to the next rule. `declines` is the set of such targets; REJECT is never one of them.
   */
  ghost predicate Takes(ruleProviders: map<string, RuleProvider>, r: Rule, c: Connection, declines: iset<string>) {
    RuleMatches(ruleProviders, r, c) && (!c.udp || r.target == "REJECT" || r.target !in declines)
  }

  /** The target of the first rule that takes the connection. */
  ghost function Decision(ruleProviders: map<string, RuleProvider>, rules: seq<Rule>, c: Connection, declines: iset<string>): Option<string> {
    if rules == [] then None
    else if Takes(ruleProviders, rules[0], c, declines) then Some(rules[0].target)
    else Decision(ruleProviders, rules[1..], c, declines)
  }

  /** The index of that rule; the length of the list when there is none. */
  ghost function Decider(ruleProviders: map<string, RuleProvider>, rules: seq<Rule>, c: Connection, declines: iset<string>): (i: nat)
    ensures i <= |rules|
  {
    if rules == [] || Takes(ruleProviders, rules[0], c, declines) then 0
    else 1 + Decider(ruleProviders, rules[1..], c, declines)
  }

  /** The decider is the least index whose rule takes the connection, and its target is the decision. */
  lemma {:induction false} DeciderFirst(ruleProviders: map<string, RuleProvider>, rules: seq<Rule>, c: Connection, declines: iset<string>)
    ensures var i := Decider(ruleProviders, rules, c, declines);
            && (i < |rules| ==> Takes(ruleProviders, rules[i], c, declines))
            && (forall j :: 0 <= j < i ==> !Takes(ruleProviders, rules[j], c, declines))
            && Decision(ruleProviders, rules, c, declines) == if i < |rules| then Some(rules[i].target) else None
  {
    if rules != [] && !Takes(ruleProviders, rules[0], c, declines) {
      DeciderFirst(ruleProviders, rules[1..], c, declines);
      forall j | 0 <= j < Decider(ruleProviders, rules, c, declines) ensures !Takes(ruleProviders, rules[j], c, declines) {
        if j > 0 { assert rules[j] == rules[1..][j - 1]; }
      }
    }
  }

  lemma DecisionCons(ruleProviders: map<string, RuleProvider>, r: Rule, tail: seq<Rule>, c: Connection, declines: iset<string>)
    ensures Decision(ruleProviders, [r] + tail, c, declines)
            == if Takes(ruleProviders, r, c, declines) then Some(r.target) else Decision(ruleProviders, tail, c, declines)
  {
    assert ([r] + tail)[1..] == tail;
  }

  /** First match over a concatenation. */
  lemma {:induction false} DecisionAppend(ruleProviders: map<string, RuleProvider>, a: seq<Rule>, b: seq<Rule>, c: Connection, declines: iset<string>)
    ensures Decision(ruleProviders, a + b, c, declines)
            == if Decision(ruleProviders, a, c, declines).Some? then Decision(ruleProviders, a, c, declines)
               else Decision(ruleProviders, b, c, declines)
  {
    if a == [] {
      assert a + b == b;
    } else {
      assert a + b == [a[0]] + (a[1..] + b);
      DecisionCons(ruleProviders, a[0], a[1..] + b, c, declines);
      DecisionAppend(ruleProviders, a[1..], b, c, declines);
    }
  }

  /** Rule-provider tables under which the same rules take the connection decide alike. */
  lemma {:induction false} DecisionSameProviders(before: map<string, RuleProvider>, after: map<string, RuleProvider>, rules: seq<Rule>,
                                                 c: Connection, declines: iset<string>)
    requires forall r :: r in rules ==> (Takes(before, r, c, declines) <==> Takes(after, r, c, declines))
    ensures Decision(before, rules, c, declines) == Decision(after, rules, c, declines)
  {
    if rules != [] { DecisionSameProviders(before, after, rules[1..], c, declines); }
  }

  // ----- the generated-configuration validator -----

  predicate Defined(groups: seq<Group>, name: string) { name in BUILTINS || Find(groups, name).Some? }

  /** Every listed member is a builtin or a group that exists. */
  predicate Resolved(groups: seq<Group>) { forall g, m :: g in groups && m in g.proxies ==> Defined(groups, m) }

  predicate Supplied(providers: map<string, Provider>, groups: seq<Group>) { forall g, p :: g in groups && p in g.uses ==> p in providers }

  predicate Filled(providers: map<string, Provider>) {
    forall p :: p in providers ==> providers[p].payload.Some? && providers[p].payload.value != []
  }

  predicate ListsKnown(ruleProviders: map<string, RuleProvider>, rules: seq<Rule>) {
    forall r :: r in rules && r.kind == "RULE-SET" ==> r.value in ruleProviders
  }

  predicate Targeted(groups: seq<Group>, rules: seq<Rule>) { forall r :: r in rules ==> Defined(groups, r.target) }

  predicate NoDuplicateRules(rules: seq<Rule>) { forall i, j :: 0 <= i < j < |rules| ==> rules[i] != rules[j] }

  predicate EndsInMatch(rules: seq<Rule>) { rules != [] && rules[|rules| - 1].kind == "MATCH" }

  /** Names, references, providers and rules are in order. */
  predicate Structured(providers: map<string, Provider>, groups: seq<Group>, ruleProviders: map<string, RuleProvider>, rules: seq<Rule>) {
    && UniqueNames(groups) && Resolved(groups) && Supplied(providers, groups) && Filled(providers)
    && ListsKnown(ruleProviders, rules) && Targeted(groups, rules) && NoDuplicateRules(rules) && EndsInMatch(rules)
  }

  /** Every connection a structured configuration is given leaves by a group or a builtin it defines, unless it is UDP and declined. */
  lemma StructuredDecides(providers: map<string, Provider>, groups: seq<Group>, ruleProviders: map<string, RuleProvider>, rules: seq<Rule>,
                          c: Connection, declines: iset<string>)
    requires Structured(providers, groups, ruleProviders, rules)
    ensures var d := Decision(ruleProviders, rules, c, declines);
            (d.Some? ==> Defined(groups, d.value)) && (d.None? ==> c.udp && rules[|rules| - 1].target in declines)
  {
    DeciderFirst(ruleProviders, rules, c, declines);
    var i := Decider(ruleProviders, rules, c, declines);
    if i < |rules| { assert rules[i] in rules; } else { assert !Takes(ruleProviders, rules[|rules| - 1], c, declines); }
  }

  /** A builtin, or a group that is there. */
  ghost predicate Exists(groups: seq<Group>, name: string) {
    name in {"DIRECT", "REJECT", "PASS", "COMPATIBLE"} || exists i :: 0 <= i < |groups| && groups[i].name == name
  }

  lemma DefinedExactly(groups: seq<Group>, name: string)
    ensures Defined(groups, name) <==> Exists(groups, name)
  {
    if g :| g in groups && g.name == name { var i :| 0 <= i < |groups| && groups[i] == g; }
  }

  /** The checks on names, references, providers and rules, one by one. */
  lemma StructuredExactly(providers: map<string, Provider>, groups: seq<Group>, ruleProviders: map<string, RuleProvider>, rules: seq<Rule>)
    ensures Structured(providers, groups, ruleProviders, rules)
            <==> && (forall i, j :: 0 <= i < j < |groups| ==> groups[i].name != groups[j].name)
                 && (forall g, m :: g in groups && m in g.proxies ==> Exists(groups, m))
                 && (forall g, p :: g in groups && p in g.uses ==> p in providers)
                 && (forall p :: p in providers ==> providers[p].payload.Some? && |providers[p].payload.value| > 0)
                 && (forall r :: r in rules ==> Exists(groups, r.target) && (r.kind == "RULE-SET" ==> r.value in ruleProviders))
                 && (forall i, j :: 0 <= i < j < |rules| ==> rules[i] != rules[j])
                 && |rules| > 0 && rules[|rules| - 1].kind == "MATCH"
  {
    forall n ensures Defined(groups, n) <==> Exists(groups, n) { DefinedExactly(groups, n); }
  }
}
