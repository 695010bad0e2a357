/** The OpenAI application route lock: one rule ahead of the ACL4SSR OpenAI rule, and its audit. */
module RouteLock {
  import opened Ordering
  import opened Results
  import opened Routing
  import opened Sifting
  import opened ServiceRules

  const LOCK_RULE := RuleSet(LOCK_LIST, OPENAI_TARGET)

  /** Families the lock must never take as a whole. */
  const SHARED_SUFFIXES := ["workos.com", "cloudflare.com", "stripe.com", "sentry.io", "datadoghq.com", "apple.com", "imgix.net"]

  datatype LockStatus = PreQualification | Passed | Installed

  predicate HasTarget(groups: seq<Group>) { exists g :: g in groups && g.name == OPENAI_TARGET }

  /** Existing locks dropped, then the canonical one put just ahead of the OpenAI rule. */
  function Locked(rules: seq<Rule>): seq<Rule> {
    var bare := Without(rules, LOCK_LIST);
    bare[..Cut(bare, ACL_OPENAI)] + [LOCK_RULE] + bare[Cut(bare, ACL_OPENAI)..]
  }

  function AuditRouteLock(groups: seq<Group>, ruleProviders: map<string, RuleProvider>, rules: seq<Rule>): Result<LockStatus> {
    if !HasTarget(groups) then Ok(PreQualification)
    else if LOCK_LIST !in ruleProviders then Raised("missing the OpenAI App rule provider")
    else if ruleProviders[LOCK_LIST].kind != "inline" || ruleProviders[LOCK_LIST].behavior != "classical" then Raised("unexpected runtime semantics")
    else if ruleProviders[LOCK_LIST].payload != RouteRules() then Raised("drifted from the reviewed contract")
    else if |Indexes(rules, LOCK_LIST)| != 1 || |Indexes(rules, ACL_OPENAI)| != 1 || |Indexes(rules, ACL_AI)| != 1 then Raised("requires one lock/OpenAI/generic-AI rule")
    else
      IndexesOne(rules, LOCK_LIST);
      IndexesOne(rules, ACL_OPENAI);
      IndexesOne(rules, ACL_AI);
      var lock, openai, ai := Indexes(rules, LOCK_LIST)[0], Indexes(rules, ACL_OPENAI)[0], Indexes(rules, ACL_AI)[0];
      if rules[lock] != LOCK_RULE then Raised("does not target service-qualified OpenAI egress")
      else if !(lock < openai < ai) then Raised("must precede ACL4SSR OpenAI and generic AI rules")
      else Ok(Passed)
  }

  /** When the lock can be put in place. */
  predicate Lockable(groups: seq<Group>, rules: seq<Rule>) {
    HasTarget(groups) && One(rules, ACL_OPENAI) && One(rules, ACL_AI) && Cut(rules, ACL_OPENAI) < Cut(rules, ACL_AI)
  }

  method ApplyRouteLock(config: Config) returns (r: Result<LockStatus>)
    modifies config`ruleProviders, config`rules
    ensures r.Ok? <==> Lockable(config.groups, old(config.rules))
    ensures r.Ok? ==> r.value == Installed && config.rules == Locked(old(config.rules))
    ensures r.Ok? ==> config.ruleProviders == old(config.ruleProviders)[LOCK_LIST := Inline(RouteRules())]
    ensures r.Ok? ==> AuditRouteLock(config.groups, config.ruleProviders, config.rules) == Ok(Passed)
  {
    var rules := config.rules;
    if !HasTarget(config.groups) { return Raised("requires the service-qualified OpenAI target"); }
    SharedSuffixesExcluded();
    if exists v :: v in SHARED_SUFFIXES && Classifier("DOMAIN-SUFFIX", v) in RouteRules() { return Raised("over-broad suffix"); }
    IndexesOne(rules, ACL_OPENAI);
    IndexesOne(rules, ACL_AI);
    if |Indexes(rules, ACL_OPENAI)| != 1 || |Indexes(rules, ACL_AI)| != 1 { return Raised("requires one ACL4SSR OpenAI and generic AI rule"); }

    config.ruleProviders := config.ruleProviders[LOCK_LIST := Inline(RouteRules())];
    var locked := InsertLock(rules);
    config.rules := locked;
    LockedShape(rules);
    AuditPassing(config.groups, config.ruleProviders, config.rules);
    AuditRaises(config.groups, config.ruleProviders, config.rules);
    var audit := AuditRouteLock(config.groups, config.ruleProviders, config.rules);
    if audit.Raised? { return audit; }
    return Ok(Installed);
  }

  /** Drops earlier locks and inserts the canonical one just ahead of the OpenAI rule. */
  method InsertLock(rules: seq<Rule>) returns (r: seq<Rule>)
    requires One(rules, ACL_OPENAI) && One(rules, ACL_AI)
    ensures r == Locked(rules)
  {
    var bare := Without(rules, LOCK_LIST);
    BareKeeps(rules);
    IndexesOne(bare, ACL_OPENAI);
    var insertAt := Indexes(bare, ACL_OPENAI)[0];
    r := bare[..insertAt] + [LOCK_RULE] + bare[insertAt..];
  }

  // ----- positions -----

  lemma {:induction false} CutAppend(a: seq<Rule>, b: seq<Rule>, provider: string)
    ensures Cut(a + b, provider) == if Cut(a, provider) < |a| then Cut(a, provider) else |a| + Cut(b, provider)
  {
    if a == [] {
      assert a + b == b;
    } else {
      assert (a + b)[1..] == a[1..] + b;
      CutAppend(a[1..], b, provider);
    }
  }

  lemma CutLacks(a: seq<Rule>, provider: string)
    ensures Cut(a, provider) == |a| <==> Lacks(a, provider)
  {
    CutFirst(a, provider);
    if Cut(a, provider) == |a| { assert a[..|a|] == a; }
    else { assert a[Cut(a, provider)] in a; }
  }

  /** Dropping the rules of one provider keeps a rule of another single. */
  lemma WithoutCut(rules: seq<Rule>, own: string, provider: string)
    requires own != provider
    ensures Cut(Without(rules, own), provider) == |Without(rules[..Cut(rules, provider)], own)|
    ensures One(Without(rules, own), provider) <==> One(rules, provider)
  {
    var i := Cut(rules, provider);
    CutFirst(rules, provider);
    if i < |rules| {
      var a, r, b := rules[..i], rules[i], rules[i + 1..];
      assert rules == a + ([r] + b);
      WithoutAround(a, r, b, own);
      CutAt(Without(a, own), r, Without(b, own), provider);
      WithoutKeeps(b, own, provider);
    } else {
      assert rules[..i] == rules;
      CutLacks(Without(rules, own), provider);
    }
  }

  lemma WithoutAround(a: seq<Rule>, r: Rule, b: seq<Rule>, own: string)
    requires !IsRuleSet(r, own)
    ensures Without(a + ([r] + b), own) == Without(a, own) + [r] + Without(b, own)
  {
    WithoutAppend(a, [r] + b, own);
    assert ([r] + b)[1..] == b;
  }

  lemma {:induction false} WithoutKeeps(rules: seq<Rule>, own: string, provider: string)
    requires own != provider
    ensures Lacks(Without(rules, own), provider) <==> Lacks(rules, provider)
  {
    if rules != [] { WithoutKeeps(rules[1..], own, provider); }
  }

  lemma WithoutShorter(rules: seq<Rule>, i: nat, j: nat)
    requires i < j <= |rules| && !IsRuleSet(rules[i], LOCK_LIST)
    ensures |Without(rules[..i], LOCK_LIST)| < |Without(rules[..j], LOCK_LIST)|
  {
    assert rules[..j] == rules[..i] + ([rules[i]] + rules[i + 1..j]);
    WithoutAppend(rules[..i], [rules[i]] + rules[i + 1..j], LOCK_LIST);
    WithoutAppend([rules[i]], rules[i + 1..j], LOCK_LIST);
  }

  lemma ListsDiffer()
    ensures LOCK_LIST != ACL_OPENAI && LOCK_LIST != ACL_AI && ACL_OPENAI != ACL_AI
  {
    assert |LOCK_LIST| != |ACL_OPENAI| && |LOCK_LIST| != |ACL_AI| && |ACL_OPENAI| != |ACL_AI|;
  }

  lemma BareKeeps(rules: seq<Rule>)
    requires One(rules, ACL_OPENAI) && One(rules, ACL_AI)
    ensures var bare := Without(rules, LOCK_LIST);
            && One(bare, ACL_OPENAI) && One(bare, ACL_AI)
            && (Cut(bare, ACL_OPENAI) < Cut(bare, ACL_AI) <==> Cut(rules, ACL_OPENAI) < Cut(rules, ACL_AI))
  {
    var oi, ai := Cut(rules, ACL_OPENAI), Cut(rules, ACL_AI);
    ListsDiffer();
    WithoutCut(rules, LOCK_LIST, ACL_OPENAI);
    WithoutCut(rules, LOCK_LIST, ACL_AI);
    if oi < ai { WithoutShorter(rules, oi, ai); } else { WithoutShorter(rules, ai, oi); }
  }

  lemma OneAppend(a: seq<Rule>, b: seq<Rule>, provider: string)
    ensures One(a + b, provider) <==> (One(a, provider) && Lacks(b, provider)) || (Lacks(a, provider) && One(b, provider))
  {
    CutAppend(a, b, provider);
    CutLacks(a, provider);
    CutLacks(b, provider);
    var i := Cut(a + b, provider);
    if i < |a| {
      assert (a + b)[i + 1..] == a[i + 1..] + b;
    } else if i < |a + b| {
      assert (a + b)[i + 1..] == b[i - |a| + 1..];
    }
  }

  /** Inserting another provider's rule moves a single rule by at most one place. */
  lemma InsertOne(a: seq<Rule>, r: Rule, b: seq<Rule>, provider: string)
    requires One(a + b, provider) && !IsRuleSet(r, provider)
    ensures One(a + ([r] + b), provider)
    ensures Cut(a + ([r] + b), provider) == if Cut(a + b, provider) < |a| then Cut(a + b, provider) else Cut(a + b, provider) + 1
  {
    OneAppend(a, b, provider);
    OneAppend(a, [r] + b, provider);
    OneAppend([r], b, provider);
    CutAppend(a, b, provider);
    CutAppend(a, [r] + b, provider);
    CutAppend([r], b, provider);
  }

  lemma CutsDiffer(rules: seq<Rule>, first: string, second: string)
    requires first != second && Cut(rules, first) < |rules|
    ensures Cut(rules, first) != Cut(rules, second)
  {
    assert IsRuleSet(rules[Cut(rules, first)], first);
  }

  lemma InsertedOwn(bare: seq<Rule>, lock: Rule, own: string, i: nat)
    requires IsRuleSet(lock, own) && Lacks(bare, own) && i <= |bare|
    ensures var s := bare[..i] + [lock] + bare[i..]; One(s, own) && Cut(s, own) == i
  {
    CutAt(bare[..i], lock, bare[i..], own);
    Associate(bare[..i], [lock], bare[i..]);
  }

  lemma InsertedOther(bare: seq<Rule>, lock: Rule, i: nat, other: string)
    requires !IsRuleSet(lock, other) && One(bare, other) && i <= |bare|
    ensures var s := bare[..i] + [lock] + bare[i..];
            One(s, other) && Cut(s, other) == Cut(bare, other) + if Cut(bare, other) < i then 0 else 1
  {
    assert bare == bare[..i] + bare[i..];
    InsertOne(bare[..i], lock, bare[i..], other);
    Associate(bare[..i], [lock], bare[i..]);
  }

  /** Putting `lock` just ahead of the rule of `first` keeps that rule and the rule of `second` single and in order. */
  lemma InsertedShape(bare: seq<Rule>, lock: Rule, own: string, first: string, second: string)
    requires IsRuleSet(lock, own) && own != first && own != second && first != second
    requires Lacks(bare, own) && One(bare, first) && One(bare, second)
    ensures var s := bare[..Cut(bare, first)] + [lock] + bare[Cut(bare, first)..];
            && One(s, own) && One(s, first) && One(s, second)
            && Cut(s, own) == Cut(bare, first) && Cut(s, first) == Cut(s, own) + 1
            && (Cut(s, first) < Cut(s, second) <==> Cut(bare, first) < Cut(bare, second))
  {
    var i := Cut(bare, first);
    InsertedOwn(bare, lock, own, i);
    InsertedOther(bare, lock, i, first);
    InsertedOther(bare, lock, i, second);
    CutsDiffer(bare, first, second);
  }

  /** In the locked list the lock stands alone, just ahead of the OpenAI rule, and the order is the old one. */
  lemma LockedShape(rules: seq<Rule>)
    requires One(rules, ACL_OPENAI) && One(rules, ACL_AI)
    ensures var locked := Locked(rules);
            && One(locked, LOCK_LIST) && One(locked, ACL_OPENAI) && One(locked, ACL_AI)
            && locked[Cut(locked, LOCK_LIST)] == LOCK_RULE
            && Cut(locked, ACL_OPENAI) == Cut(locked, LOCK_LIST) + 1
            && (Cut(locked, ACL_OPENAI) < Cut(locked, ACL_AI) <==> Cut(rules, ACL_OPENAI) < Cut(rules, ACL_AI))
  {
    BareKeeps(rules);
    ListsDiffer();
    InsertedShape(Without(rules, LOCK_LIST), LOCK_RULE, LOCK_LIST, ACL_OPENAI, ACL_AI);
  }

  predicate NotLock(r: Rule) { r.kind != "RULE-SET" || r.value != "cr_openai_app" }

  /** Position `i` of `bare` holds its first OpenAI rule, and `out` has the lock right ahead of it. */
  ghost predicate LockedAt(bare: seq<Rule>, i: nat, out: seq<Rule>) {
    && i <= |bare| && |out| == |bare| + 1 && out[..i] == bare[..i] && out[i + 1..] == bare[i..]
    && out[i] == Rule("RULE-SET", "cr_openai_app", "__CR_AI_SERVICE_OPENAI", [])
    && (i < |bare| ==> bare[i].kind == "RULE-SET" && bare[i].value == "acl4ssr_openai")
    && forall j :: 0 <= j < i ==> bare[j].kind != "RULE-SET" || bare[j].value != "acl4ssr_openai"
  }

  /** Any earlier lock goes, nothing else does, and the order stays. */
  lemma LockedExactly(rules: seq<Rule>)
    ensures exists bare, i: nat :: Sifted(rules, NotLock, bare) && LockedAt(bare, i, Locked(rules))
  {
    var bare := Without(rules, LOCK_LIST);
    BareInOrder(rules);
    InsertedAt(bare);
    assert LockedAt(bare, Cut(bare, ACL_OPENAI), Locked(rules));
  }

  lemma BareInOrder(rules: seq<Rule>)
    ensures Sifted(rules, NotLock, Without(rules, LOCK_LIST))
  {
    WithoutInOrder(rules, LOCK_LIST);
    SiftedAlike(rules, (r: Rule) => !IsRuleSet(r, LOCK_LIST), NotLock, Without(rules, LOCK_LIST));
  }

  lemma InsertedAt(bare: seq<Rule>)
    ensures LockedAt(bare, Cut(bare, ACL_OPENAI), bare[..Cut(bare, ACL_OPENAI)] + [LOCK_RULE] + bare[Cut(bare, ACL_OPENAI)..])
  {
    CutIsFirst(bare, ACL_OPENAI);
  }

  lemma {:induction false} CutIsFirst(rules: seq<Rule>, provider: string)
    ensures forall j :: 0 <= j < Cut(rules, provider) ==> !IsRuleSet(rules[j], provider)
  {
    if rules != [] && !IsRuleSet(rules[0], provider) {
      CutIsFirst(rules[1..], provider);
      forall j | 0 <= j < Cut(rules, provider) ensures !IsRuleSet(rules[j], provider) {
        if j > 0 { assert rules[j] == rules[1..][j - 1]; }
      }
    }
  }

  /** The audit passes exactly when the lock list, the three single rules and their order are right. */
  lemma AuditPassing(groups: seq<Group>, ruleProviders: map<string, RuleProvider>, rules: seq<Rule>)
    ensures AuditRouteLock(groups, ruleProviders, rules) == Ok(Passed)
            <==> && HasTarget(groups)
                 && LOCK_LIST in ruleProviders && ruleProviders[LOCK_LIST] == Inline(RouteRules())
                 && One(rules, LOCK_LIST) && One(rules, ACL_OPENAI) && One(rules, ACL_AI)
                 && rules[Cut(rules, LOCK_LIST)] == LOCK_RULE
                 && Cut(rules, LOCK_LIST) < Cut(rules, ACL_OPENAI) < Cut(rules, ACL_AI)
    ensures AuditRouteLock(groups, ruleProviders, rules) == Ok(PreQualification) <==> forall g :: g in groups ==> g.name != "__CR_AI_SERVICE_OPENAI"
  {
    IndexesOne(rules, LOCK_LIST);
    IndexesOne(rules, ACL_OPENAI);
    IndexesOne(rules, ACL_AI);
  }

  lemma AuditRaises(groups: seq<Group>, ruleProviders: map<string, RuleProvider>, rules: seq<Rule>)
    ensures AuditRouteLock(groups, ruleProviders, rules).Raised?
            || AuditRouteLock(groups, ruleProviders, rules) == Ok(if HasTarget(groups) then Passed else PreQualification)
  {
  }

  // ----- guarantees -----

  /** Locking a locked list changes nothing. */
  lemma LockIdempotent(rules: seq<Rule>)
    ensures Locked(Locked(rules)) == Locked(rules)
  {
    var bare := Without(rules, LOCK_LIST);
    InsertThenDrop(bare, Cut(bare, ACL_OPENAI), LOCK_RULE, LOCK_LIST);
  }

  /** The service rewrite always leaves a list the lock accepts. */
  lemma LockableAfterServices(ruleProviders: map<string, RuleProvider>, rules: seq<Rule>, groups: seq<Group>)
    requires Rewritable(ruleProviders, rules) && HasTarget(groups)
    ensures Lockable(groups, Rewritten(rules))
  {
    OpenAiSingle(ruleProviders, rules);
    GenericSingle(ruleProviders, rules);
  }

  lemma OpenAiSingle(ruleProviders: map<string, RuleProvider>, rules: seq<Rule>)
    requires Rewritable(ruleProviders, rules)
    ensures One(Rewritten(rules), ACL_OPENAI) && Cut(Rewritten(rules), ACL_OPENAI) == |Front(rules)|
  {
    var o, others := SERVICE_RULES[0], SERVICE_RULES[1..];
    BackHead(rules);
    CutFirst(rules, ACL_AI);
    DifferentLists(rules[Cut(rules, ACL_AI)]);
    ServiceListsDiffer();
    CutAt(Front(rules), o, others + Back(rules), ACL_OPENAI);
    assert Rewritten(rules) == Front(rules) + [o] + (others + Back(rules));
  }

  lemma GenericSingle(ruleProviders: map<string, RuleProvider>, rules: seq<Rule>)
    requires Rewritable(ruleProviders, rules)
    ensures One(Rewritten(rules), ACL_AI) && Cut(Rewritten(rules), ACL_AI) == |Front(rules)| + |SERVICE_RULES|
  {
    var ai := Cut(rules, ACL_AI);
    var generic, tail := rules[ai], Without(rules[ai + 1..], ACL_OPENAI);
    CutFirst(rules, ACL_AI);
    BackHead(rules);
    DifferentLists(SERVICE_RULES[0]);
    ServiceListsDiffer();
    CutAt(Front(rules) + SERVICE_RULES, generic, tail, ACL_AI);
    assert Rewritten(rules) == (Front(rules) + SERVICE_RULES) + [generic] + tail;
  }

  lemma ServiceListsDiffer()
    ensures CLAUDE_LIST != ACL_OPENAI && GEMINI_LIST != ACL_OPENAI && CLAUDE_LIST != ACL_AI && GEMINI_LIST != ACL_AI
  {
    assert CLAUDE_LIST[0] == GEMINI_LIST[0] == 'c' && ACL_OPENAI[0] == ACL_AI[0] == 'a';
  }

  /**
   What a passing audit promises: application traffic the target carries is decided no later than the
   lock, so neither the ACL4SSR OpenAI rule nor the generic AI rule decides it.
   */
  lemma AuditedTrafficIsLocked(groups: seq<Group>, ruleProviders: map<string, RuleProvider>, rules: seq<Rule>, c: Connection, declines: iset<string>)
    requires AuditRouteLock(groups, ruleProviders, rules) == Ok(Passed)
    requires OnList(RouteRules(), c) && Carries(OPENAI_TARGET, c, declines)
    ensures var i := Decider(ruleProviders, rules, c, declines);
            i <= Cut(rules, LOCK_LIST) < |rules| && !IsRuleSet(rules[i], ACL_OPENAI) && !IsRuleSet(rules[i], ACL_AI)
    ensures Decider(ruleProviders, rules, c, declines) == Cut(rules, LOCK_LIST) ==> Decision(ruleProviders, rules, c, declines) == Some(OPENAI_TARGET)
  {
    AuditPassing(groups, ruleProviders, rules);
    var i, lock := Decider(ruleProviders, rules, c, declines), Cut(rules, LOCK_LIST);
    assert Hits(ruleProviders, LOCK_LIST, c);
    assert Takes(ruleProviders, rules[lock], c, declines);
    DeciderFirst(ruleProviders, rules, c, declines);
    CutFirst(rules, ACL_OPENAI);
    CutFirst(rules, ACL_AI);
    assert rules[i] in rules[..Cut(rules, ACL_OPENAI)] && rules[i] in rules[..Cut(rules, ACL_AI)];
  }

  /** Taking the lock rule out again gives the list it went into. */
  lemma LockedWithout(rules: seq<Rule>)
    requires Lacks(rules, LOCK_LIST)
    ensures Without(Locked(rules), LOCK_LIST) == rules
  {
    WithoutNone(rules, LOCK_LIST);
    InsertThenDrop(rules, Cut(rules, ACL_OPENAI), LOCK_RULE, LOCK_LIST);
  }

  lemma WithoutPart(rules: seq<Rule>, i: nat, own: string)
    requires i <= |rules| && Lacks(rules, own)
    ensures Without(rules[..i], own) == rules[..i] && Without(rules[i..], own) == rules[i..]
  {
    WithoutNone(rules[..i], own);
    WithoutNone(rules[i..], own);
  }

  lemma DropHead(lock: Rule, rules: seq<Rule>, own: string)
    requires IsRuleSet(lock, own)
    ensures Without([lock] + rules, own) == Without(rules, own)
  {
    assert ([lock] + rules)[1..] == rules;
  }

  lemma DropBetween(a: seq<Rule>, lock: Rule, b: seq<Rule>, own: string)
    requires IsRuleSet(lock, own) && Without(a, own) == a && Without(b, own) == b
    ensures Without(a + [lock] + b, own) == a + b
  {
    Associate(a, [lock], b);
    WithoutAppend(a, [lock] + b, own);
    DropHead(lock, b, own);
  }

  lemma InsertThenDrop(rules: seq<Rule>, i: nat, lock: Rule, own: string)
    requires i <= |rules| && IsRuleSet(lock, own) && Lacks(rules, own)
    ensures Without(rules[..i] + [lock] + rules[i..], own) == rules
  {
    WithoutPart(rules, i, own);
    DropBetween(rules[..i], lock, rules[i..], own);
    assert rules[..i] + rules[i..] == rules;
  }

  lemma SameTakes(ruleProviders: map<string, RuleProvider>, own: string, list: RuleProvider, r: Rule, c: Connection, declines: iset<string>)
    requires !IsRuleSet(r, own)
    ensures Takes(ruleProviders, r, c, declines) <==> Takes(ruleProviders[own := list], r, c, declines)
  {
    if r.kind == "RULE-SET" { assert Hits(ruleProviders[own := list], r.value, c) <==> Hits(ruleProviders, r.value, c); }
  }

  /** Traffic outside the documented surface is decided as before a first lock. */
  lemma LockLeavesOthersAlone(ruleProviders: map<string, RuleProvider>, rules: seq<Rule>, c: Connection, declines: iset<string>)
    requires Lacks(rules, LOCK_LIST) && !OnList(RouteRules(), c)
    ensures Decision(ruleProviders[LOCK_LIST := Inline(RouteRules())], Locked(rules), c, declines) == Decision(ruleProviders, rules, c, declines)
  {
    var list := Inline(RouteRules());
    var after := ruleProviders[LOCK_LIST := list];
    assert !Hits(after, LOCK_LIST, c);
    LockedWithout(rules);
    DecisionWithout(after, Locked(rules), LOCK_LIST, c, declines);
    forall r | r in rules ensures Takes(ruleProviders, r, c, declines) <==> Takes(after, r, c, declines) {
      SameTakes(ruleProviders, LOCK_LIST, list, r, c, declines);
    }
    DecisionSameProviders(ruleProviders, after, rules, c, declines);
  }

  /** The reviewed surface takes no shared family as a whole. */
  lemma SharedSuffixesExcluded()
    ensures forall v :: v in SHARED_SUFFIXES ==> Classifier("DOMAIN-SUFFIX", v) !in RouteRules()
  {
    assert "DOMAIN" != "DOMAIN-SUFFIX";
    forall v | v in SHARED_SUFFIXES ensures Classifier("DOMAIN-SUFFIX", v) !in RouteRules() {
      assert v !in ROUTE_SUFFIXES;
    }
  }
}
