/** The rule list: splicing the service rules ahead of the generic AI rule, and the OpenAI route lock. */
module ServiceRules {
  import opened Results
  import opened Routing
  import opened Sifting

  const ACL_AI := "acl4ssr_ai"
  const ACL_OPENAI := "acl4ssr_openai"
  const CLAUDE_LIST := "cr_ai_rules_claude"
  const GEMINI_LIST := "cr_ai_rules_gemini"
  const LOCK_LIST := "cr_openai_app"
  const OPENAI_TARGET := "__CR_AI_SERVICE_OPENAI"
  const CLAUDE_TARGET := "__CR_AI_SERVICE_CLAUDE"
  const GEMINI_TARGET := "__CR_AI_SERVICE_GEMINI"

  const CLAUDE_RULES := [
    Classifier("DOMAIN-KEYWORD", "anthropic"), Classifier("DOMAIN-KEYWORD", "claude"),
    Classifier("DOMAIN-SUFFIX", "anthropic.com"), Classifier("DOMAIN-SUFFIX", "claude.ai"),
    Classifier("DOMAIN-SUFFIX", "claude.com"), Classifier("DOMAIN-SUFFIX", "claudeusercontent.com")
  ]
  const GEMINI_RULES := [
    Classifier("DOMAIN", "ai.google.dev"), Classifier("DOMAIN", "aistudio.google.com"), Classifier("DOMAIN", "bard.google.com"),
    Classifier("DOMAIN", "gemini.google.com"), Classifier("DOMAIN", "generativelanguage.googleapis.com"),
    Classifier("DOMAIN", "notebooklm.google.com"), Classifier("DOMAIN-SUFFIX", "bard.google.com"),
    Classifier("DOMAIN-SUFFIX", "gemini.google.com"), Classifier("DOMAIN-SUFFIX", "makersuite.google.com"),
    Classifier("DOMAIN-SUFFIX", "notebooklm.google"), Classifier("DOMAIN-SUFFIX", "notebooklm.google.com")
  ]
  const ROUTE_HOSTS := [
    "android.chat.openai.com", "auth0.openai.com", "cdn.openaimerge.com", "cdn.workos.com", "challenges.cloudflare.com",
    "chat.openai.com", "desktop.chat.openai.com", "forwarder.workos.com", "humb.apple.com", "images.workoscdn.com",
    "ios.chat.openai.com", "js.intercomcdn.com", "js.stripe.com", "o207216.ingest.sentry.io", "o33249.ingest.sentry.io",
    "rum.browser-intake-datadoghq.com", "setup.auth.openai.com", "setup.workos.com", "tcr9i.chat.openai.com", "workos.imgix.net"
  ]
  const ROUTE_SUFFIXES := [
    "auth.openai.com", "chatgpt.com", "ct.sendgrid.net", "intercom.io", "intercomcdn.com", "oaistatic.com",
    "oaistatsig.com", "oaiusercontent.com", "openai.com"
  ]

  function Classify(kind: string, values: seq<string>): seq<Classifier> {
    seq(|values|, i requires 0 <= i < |values| => Classifier(kind, values[i]))
  }

  /** The documented application surface, in sorted order. */
  function RouteRules(): seq<Classifier> {
    Classify("DOMAIN", ROUTE_HOSTS) + Classify("DOMAIN-SUFFIX", ROUTE_SUFFIXES)
  }

  function Inline(payload: seq<Classifier>): RuleProvider { RuleProvider("inline", "classical", payload) }

  function RuleSet(provider: string, target: string): Rule { Rule("RULE-SET", provider, target, []) }

  predicate IsRuleSet(r: Rule, provider: string) { r.kind == "RULE-SET" && r.value == provider }

  /** Positions of the RULE-SET rules of one provider, counted from `base`. */
  function Indexes(rules: seq<Rule>, provider: string, base: nat := 0): seq<nat> {
    if rules == [] then []
    else (if IsRuleSet(rules[0], provider) then [base] else []) + Indexes(rules[1..], provider, base + 1)
  }

  /** The position of the first such rule; the length of the list when there is none. */
  function Cut(rules: seq<Rule>, provider: string): (i: nat)
    ensures i <= |rules|
    ensures i < |rules| ==> IsRuleSet(rules[i], provider)
  {
    if rules == [] || IsRuleSet(rules[0], provider) then 0 else 1 + Cut(rules[1..], provider)
  }

  predicate Lacks(rules: seq<Rule>, provider: string) { forall r :: r in rules ==> !IsRuleSet(r, provider) }

  /** Exactly one rule of the provider. */
  predicate One(rules: seq<Rule>, provider: string) {
    var i := Cut(rules, provider);
    i < |rules| && Lacks(rules[i + 1..], provider)
  }

  lemma {:induction false} CutFirst(rules: seq<Rule>, provider: string)
    ensures Lacks(rules[..Cut(rules, provider)], provider)
  {
    if rules != [] && !IsRuleSet(rules[0], provider) {
      CutFirst(rules[1..], provider);
      assert rules[..Cut(rules, provider)] == [rules[0]] + rules[1..][..Cut(rules[1..], provider)];
    }
  }

  lemma {:induction false} IndexesNone(rules: seq<Rule>, provider: string, base: nat)
    ensures Indexes(rules, provider, base) == [] <==> Lacks(rules, provider)
  {
    if rules != [] { IndexesNone(rules[1..], provider, base + 1); }
  }

  /** Finding one index is finding exactly one rule, at the cut. */
  lemma {:induction false} IndexesOne(rules: seq<Rule>, provider: string, base: nat := 0)
    ensures |Indexes(rules, provider, base)| == 1 <==> One(rules, provider)
    ensures One(rules, provider) ==> Indexes(rules, provider, base) == [base + Cut(rules, provider)]
  {
    if rules != [] {
      IndexesNone(rules[1..], provider, base + 1);
      if !IsRuleSet(rules[0], provider) {
        IndexesOne(rules[1..], provider, base + 1);
        if Cut(rules, provider) < |rules| {
          assert rules[Cut(rules, provider) + 1..] == rules[1..][Cut(rules[1..], provider) + 1..];
        }
      }
    }
  }

  /** A list split around a single rule of the provider has it there and nowhere else. */
  lemma {:induction false} CutAt(a: seq<Rule>, r: Rule, b: seq<Rule>, provider: string)
    requires Lacks(a, provider) && IsRuleSet(r, provider)
    ensures Cut(a + [r] + b, provider) == |a|
    ensures One(a + [r] + b, provider) <==> Lacks(b, provider)
  {
    var s := a + [r] + b;
    if a == [] {
      assert s == [r] + b && s[1..] == b;
    } else {
      assert s[1..] == a[1..] + [r] + b;
      CutAt(a[1..], r, b, provider);
      assert s[|a| + 1..] == b;
    }
  }

  /** The list without one provider's rules. */
  function Without(rules: seq<Rule>, provider: string): (r: seq<Rule>)
    ensures Lacks(r, provider)
    ensures forall x :: x in r ==> x in rules
  {
    if rules == [] then []
    else if IsRuleSet(rules[0], provider) then Without(rules[1..], provider)
    else [rules[0]] + Without(rules[1..], provider)
  }

  lemma {:induction false} WithoutNone(rules: seq<Rule>, provider: string)
    requires Lacks(rules, provider)
    ensures Without(rules, provider) == rules
  {
    if rules != [] { WithoutNone(rules[1..], provider); }
  }

  lemma {:induction false} WithoutAppend(a: seq<Rule>, b: seq<Rule>, provider: string)
    ensures Without(a + b, provider) == Without(a, provider) + Without(b, provider)
  {
    if a == [] {
      assert a + b == b;
    } else {
      assert (a + b)[1..] == a[1..] + b;
      WithoutAppend(a[1..], b, provider);
    }
  }

  /** With one rule of the provider, removing its rules is popping the cut. */
  lemma WithoutPop(rules: seq<Rule>, provider: string)
    requires One(rules, provider)
    ensures Without(rules, provider) == rules[..Cut(rules, provider)] + rules[Cut(rules, provider) + 1..]
  {
    var i := Cut(rules, provider);
    var a, b := rules[..i], rules[i + 1..];
    CutFirst(rules, provider);
    assert rules == a + ([rules[i]] + b);
    WithoutAppend(a, [rules[i]] + b, provider);
    WithoutAppend([rules[i]], b, provider);
    WithoutNone(a, provider);
    WithoutNone(b, provider);
  }

  // ----- service rules -----

  const SERVICE_RULES := [RuleSet(ACL_OPENAI, OPENAI_TARGET), RuleSet(CLAUDE_LIST, CLAUDE_TARGET), RuleSet(GEMINI_LIST, GEMINI_TARGET)]

  datatype RuleCounts = RuleCounts(openai: nat, claude: nat, gemini: nat)

  predicate Contains(payload: seq<Classifier>, wanted: seq<Classifier>) { forall k :: k in wanted ==> k in payload }

  /** When the rewrite goes through. */
  predicate Rewritable(ruleProviders: map<string, RuleProvider>, rules: seq<Rule>) {
    && ACL_AI in ruleProviders && ACL_OPENAI in ruleProviders
    && Contains(ruleProviders[ACL_AI].payload, CLAUDE_RULES) && Contains(ruleProviders[ACL_AI].payload, GEMINI_RULES)
    && One(rules, ACL_AI) && One(rules, ACL_OPENAI)
    && rules[Cut(rules, ACL_AI)].target == AI_GROUP && rules[Cut(rules, ACL_AI)].options == []
  }

  /** What stays ahead of the generic AI rule, and that rule with what stays behind it. */
  function Front(rules: seq<Rule>): seq<Rule> { Without(rules[..Cut(rules, ACL_AI)], ACL_OPENAI) }

  function Back(rules: seq<Rule>): seq<Rule> { Without(rules[Cut(rules, ACL_AI)..], ACL_OPENAI) }

  function Rewritten(rules: seq<Rule>): seq<Rule> { Front(rules) + SERVICE_RULES + Back(rules) }

  function WithServiceLists(ruleProviders: map<string, RuleProvider>): map<string, RuleProvider> {
    ruleProviders[CLAUDE_LIST := Inline(CLAUDE_RULES)][GEMINI_LIST := Inline(GEMINI_RULES)]
  }

  method RewriteServiceRules(config: Config) returns (r: Result<RuleCounts>)
    modifies config`ruleProviders, config`rules
    ensures r.Ok? <==> Rewritable(old(config.ruleProviders), old(config.rules))
    ensures r.Ok? ==> config.ruleProviders == WithServiceLists(old(config.ruleProviders))
    ensures r.Ok? ==> config.rules == Rewritten(old(config.rules))
    ensures r.Ok? ==> config.ruleProviders.Keys >= {"acl4ssr_openai", "cr_ai_rules_claude", "cr_ai_rules_gemini"}
    ensures r.Ok? ==> && r.value.openai == |config.ruleProviders["acl4ssr_openai"].payload|
                      && r.value.claude == |config.ruleProviders["cr_ai_rules_claude"].payload|
                      && r.value.gemini == |config.ruleProviders["cr_ai_rules_gemini"].payload|
    ensures r.Raised? ==> config.rules == old(config.rules)
    ensures r.Raised? ==> config.ruleProviders in {old(config.ruleProviders), WithServiceLists(old(config.ruleProviders))}
  {
    var rules := config.rules;
    if ACL_AI !in config.ruleProviders { return Raised("requires the pinned ACL4SSR AI provider"); }
    if ACL_OPENAI !in config.ruleProviders { return Raised("requires the pinned ACL4SSR OpenAI provider"); }
    var ai, openai := config.ruleProviders[ACL_AI], config.ruleProviders[ACL_OPENAI];
    if !Contains(ai.payload, CLAUDE_RULES) || !Contains(ai.payload, GEMINI_RULES) { return Raised("pinned ACL4SSR AI rules changed"); }
    config.ruleProviders := config.ruleProviders[CLAUDE_LIST := Inline(CLAUDE_RULES)];
    config.ruleProviders := config.ruleProviders[GEMINI_LIST := Inline(GEMINI_RULES)];

    ListNames();
    var aiIndexes, openaiIndexes := Indexes(rules, ACL_AI), Indexes(rules, ACL_OPENAI);
    IndexesOne(rules, ACL_AI);
    IndexesOne(rules, ACL_OPENAI);
    if |aiIndexes| != 1 || |openaiIndexes| != 1 { return Raised("requires exactly one rule"); }
    var generic := rules[aiIndexes[0]];
    if generic.target != AI_GROUP || generic.options != [] { return Raised("no longer targets the AI policy group"); }

    var rewritten := InsertServices(rules, openaiIndexes[0]);
    config.rules := rewritten;
    return Ok(RuleCounts(|openai.payload|, |CLAUDE_RULES|, |GEMINI_RULES|));
  }

  lemma ListNames()
    ensures ACL_OPENAI == "acl4ssr_openai" && CLAUDE_LIST == "cr_ai_rules_claude" && GEMINI_LIST == "cr_ai_rules_gemini"
    ensures ACL_OPENAI != CLAUDE_LIST && ACL_OPENAI != GEMINI_LIST && CLAUDE_LIST != GEMINI_LIST
  {
    assert ACL_OPENAI[0] == 'a' && CLAUDE_LIST[0] == 'c' && GEMINI_LIST[0] == 'c' && CLAUDE_LIST[12] == 'c' && GEMINI_LIST[12] == 'g';
  }

  lemma {:induction false} WithoutInOrder(rules: seq<Rule>, provider: string)
    ensures Sifted(rules, (r: Rule) => !IsRuleSet(r, provider), Without(rules, provider))
  {
    var keep := (r: Rule) => !IsRuleSet(r, provider);
    if rules == [] {
      SiftedEmpty(keep);
    } else {
      WithoutInOrder(rules[1..], provider);
      SiftedCons(rules[0], rules[1..], keep, Without(rules[1..], provider));
      assert rules == [rules[0]] + rules[1..];
    }
  }

  /** One rule of the list in all, at this place. */
  ghost predicate AloneAt(rules: seq<Rule>, provider: string, i: nat) {
    i < |rules| && forall j :: 0 <= j < |rules| ==> (j == i <==> rules[j].kind == "RULE-SET" && rules[j].value == provider)
  }

  lemma OneExactly(rules: seq<Rule>, provider: string)
    ensures One(rules, provider) <==> exists i: nat :: AloneAt(rules, provider, i)
    ensures forall i: nat :: AloneAt(rules, provider, i) ==> i == Cut(rules, provider)
  {
    var c := Cut(rules, provider);
    CutFirst(rules, provider);
    if One(rules, provider) {
      forall j | 0 <= j < |rules| ensures j == c <==> rules[j].kind == "RULE-SET" && rules[j].value == provider {
        if j < c { assert rules[j] in rules[..c]; }
        if j > c { assert rules[c + 1..][j - c - 1] == rules[j] && rules[j] in rules[c + 1..]; }
      }
      assert AloneAt(rules, provider, c);
    }
    forall i: nat | AloneAt(rules, provider, i) ensures i == c && One(rules, provider) {
      CutAlone(rules, provider, i);
      forall r | r in rules[i + 1..] ensures !IsRuleSet(r, provider) {
        var k :| 0 <= k < |rules[i + 1..]| && rules[i + 1..][k] == r;
        assert rules[i + 1 + k] == r;
      }
    }
  }

  lemma {:induction false} CutAlone(rules: seq<Rule>, provider: string, i: nat)
    requires AloneAt(rules, provider, i)
    ensures Cut(rules, provider) == i
  {
    if i > 0 {
      assert AloneAt(rules[1..], provider, i - 1) by { assert forall j :: 0 <= j < |rules| - 1 ==> rules[1..][j] == rules[j + 1]; }
      CutAlone(rules[1..], provider, i - 1);
    } else {
      assert IsRuleSet(rules[0], provider);
    }
  }

  /** The one rule for the generic AI list. */
  ghost predicate IsGeneric(rules: seq<Rule>, i: nat) { AloneAt(rules, "acl4ssr_ai", i) }

  /** When the rewrite goes through: each condition spelled out. */
  lemma RewritableExactly(ruleProviders: map<string, RuleProvider>, rules: seq<Rule>)
    ensures Rewritable(ruleProviders, rules)
            <==> && "acl4ssr_ai" in ruleProviders && "acl4ssr_openai" in ruleProviders
                 && (forall k :: k in CLAUDE_RULES || k in GEMINI_RULES ==> k in ruleProviders["acl4ssr_ai"].payload)
                 && (exists j: nat :: AloneAt(rules, "acl4ssr_openai", j))
                 && exists i: nat :: AloneAt(rules, "acl4ssr_ai", i) && rules[i].target == "人工智能" && rules[i].options == []
  {
    RewritableWith(ruleProviders, rules, CLAUDE_RULES, GEMINI_RULES);
  }

  lemma RewritableWith(ruleProviders: map<string, RuleProvider>, rules: seq<Rule>, claude: seq<Classifier>, gemini: seq<Classifier>)
    ensures (&& ACL_AI in ruleProviders && ACL_OPENAI in ruleProviders
             && Contains(ruleProviders[ACL_AI].payload, claude) && Contains(ruleProviders[ACL_AI].payload, gemini)
             && One(rules, ACL_AI) && One(rules, ACL_OPENAI)
             && rules[Cut(rules, ACL_AI)].target == AI_GROUP && rules[Cut(rules, ACL_AI)].options == [])
            <==> && ACL_AI in ruleProviders && ACL_OPENAI in ruleProviders
                 && (forall k :: k in claude || k in gemini ==> k in ruleProviders[ACL_AI].payload)
                 && (exists j: nat :: AloneAt(rules, ACL_OPENAI, j))
                 && exists i: nat :: AloneAt(rules, ACL_AI, i) && rules[i].target == AI_GROUP && rules[i].options == []
  {
    OneExactly(rules, ACL_AI);
    OneExactly(rules, ACL_OPENAI);
    if One(rules, ACL_AI) { assert AloneAt(rules, ACL_AI, Cut(rules, ACL_AI)); }
  }

  predicate NotOpenAiRule(r: Rule) { r.kind != "RULE-SET" || r.value != "acl4ssr_openai" }

  /** One part, the three service rules, the other part. */
  ghost predicate IsSpliced(front: seq<Rule>, back: seq<Rule>, out: seq<Rule>) {
    && |out| == |front| + 3 + |back| && out[..|front|] == front && out[|front| + 3..] == back
    && out[|front|] == Rule("RULE-SET", "acl4ssr_openai", "__CR_AI_SERVICE_OPENAI", [])
    && out[|front| + 1] == Rule("RULE-SET", "cr_ai_rules_claude", "__CR_AI_SERVICE_CLAUDE", [])
    && out[|front| + 2] == Rule("RULE-SET", "cr_ai_rules_gemini", "__CR_AI_SERVICE_GEMINI", [])
  }

  lemma ServicesSpliced(front: seq<Rule>, back: seq<Rule>)
    ensures IsSpliced(front, back, front + SERVICE_RULES + back)
  {
  }

  lemma PartSifted(part: seq<Rule>)
    ensures Sifted(part, NotOpenAiRule, Without(part, ACL_OPENAI))
  {
    WithoutInOrder(part, ACL_OPENAI);
    SiftedAlike(part, (r: Rule) => !IsRuleSet(r, ACL_OPENAI), NotOpenAiRule, Without(part, ACL_OPENAI));
  }

  lemma RewrittenParts(rules: seq<Rule>, i: nat)
    requires IsGeneric(rules, i)
    ensures Rewritten(rules) == Without(rules[..i], ACL_OPENAI) + SERVICE_RULES + Without(rules[i..], ACL_OPENAI)
  {
    CutAtGeneric(rules, i);
  }

  /** The list without its OpenAI rule, and the three service rules right ahead of the generic one. */
  lemma RewrittenExactly(rules: seq<Rule>, i: nat) returns (front: seq<Rule>, back: seq<Rule>)
    requires IsGeneric(rules, i)
    ensures Sifted(rules[..i], NotOpenAiRule, front) && Sifted(rules[i..], NotOpenAiRule, back) && IsSpliced(front, back, Rewritten(rules))
  {
    RewrittenParts(rules, i);
    front, back := Without(rules[..i], ACL_OPENAI), Without(rules[i..], ACL_OPENAI);
    PartSifted(rules[..i]);
    PartSifted(rules[i..]);
    ServicesSpliced(front, back);
  }

  lemma CutAtGeneric(rules: seq<Rule>, i: nat)
    requires IsGeneric(rules, i)
    ensures Cut(rules, ACL_AI) == i
  {
    CutAlone(rules, ACL_AI, i);
  }

  /** Pops the OpenAI rule, finds the generic rule again, and inserts the service rules there. */
  method InsertServices(rules: seq<Rule>, openai: nat) returns (r: seq<Rule>)
    requires One(rules, ACL_AI) && One(rules, ACL_OPENAI) && openai == Cut(rules, ACL_OPENAI)
    ensures r == Rewritten(rules)
  {
    SpliceIndex(rules);
    var popped := rules[..openai] + rules[openai + 1..];
    IndexesOne(popped, ACL_AI);
    var at := Indexes(popped, ACL_AI)[0];
    r := popped[..at] + SERVICE_RULES + popped[at..];
  }

  lemma DifferentLists(r: Rule)
    ensures !(IsRuleSet(r, ACL_AI) && IsRuleSet(r, ACL_OPENAI))
    ensures !(IsRuleSet(r, LOCK_LIST) && (IsRuleSet(r, ACL_AI) || IsRuleSet(r, ACL_OPENAI)))
  {
    assert ACL_AI[8] != ACL_OPENAI[8] && LOCK_LIST[0] != ACL_OPENAI[0] && LOCK_LIST[0] != ACL_AI[0];
  }

  lemma GenericNotOpenAi(r: Rule)
    requires IsRuleSet(r, ACL_AI)
    ensures !IsRuleSet(r, ACL_OPENAI)
  {
    DifferentLists(r);
  }

  lemma WithoutHead(rules: seq<Rule>, i: nat, provider: string)
    requires i < |rules| && !IsRuleSet(rules[i], provider)
    ensures Without(rules[i..], provider) == [rules[i]] + Without(rules[i + 1..], provider)
  {
    assert rules[i..][1..] == rules[i + 1..];
  }

  /** The rest of the list starts with the generic rule. */
  lemma BackHead(rules: seq<Rule>)
    requires Cut(rules, ACL_AI) < |rules|
    ensures Back(rules) == [rules[Cut(rules, ACL_AI)]] + Without(rules[Cut(rules, ACL_AI) + 1..], ACL_OPENAI)
  {
    CutFirst(rules, ACL_AI);
    GenericNotOpenAi(rules[Cut(rules, ACL_AI)]);
    WithoutHead(rules, Cut(rules, ACL_AI), ACL_OPENAI);
  }

  /** Popping the OpenAI rule leaves the two parts side by side. */
  lemma PoppedIsFrontBack(rules: seq<Rule>)
    requires One(rules, ACL_OPENAI)
    ensures rules[..Cut(rules, ACL_OPENAI)] + rules[Cut(rules, ACL_OPENAI) + 1..] == Front(rules) + Back(rules)
  {
    WithoutPop(rules, ACL_OPENAI);
    assert rules == rules[..Cut(rules, ACL_AI)] + rules[Cut(rules, ACL_AI)..];
    WithoutAppend(rules[..Cut(rules, ACL_AI)], rules[Cut(rules, ACL_AI)..], ACL_OPENAI);
  }

  lemma Spliced(front: seq<Rule>, x: Rule, tail: seq<Rule>, provider: string)
    requires Lacks(front, provider) && IsRuleSet(x, provider) && Lacks(tail, provider)
    ensures var s := front + ([x] + tail);
            One(s, provider) && Cut(s, provider) == |front| && s[..|front|] == front && s[|front|..] == [x] + tail
  {
    CutAt(front, x, tail, provider);
    assert front + ([x] + tail) == front + [x] + tail;
  }

  /** Where the generic rule stands once the OpenAI rule is popped, and what inserting there gives. */
  lemma SpliceIndex(rules: seq<Rule>)
    requires One(rules, ACL_AI) && One(rules, ACL_OPENAI)
    ensures var popped := rules[..Cut(rules, ACL_OPENAI)] + rules[Cut(rules, ACL_OPENAI) + 1..];
            && One(popped, ACL_AI)
            && popped[..Cut(popped, ACL_AI)] + SERVICE_RULES + popped[Cut(popped, ACL_AI)..] == Rewritten(rules)
  {
    var ai := Cut(rules, ACL_AI);
    PoppedIsFrontBack(rules);
    BackHead(rules);
    CutFirst(rules, ACL_AI);
    Spliced(Front(rules), rules[ai], Without(rules[ai + 1..], ACL_OPENAI), ACL_AI);
  }

  /** Nothing in the list uses the two service lists yet. */
  predicate NoServiceRules(rules: seq<Rule>) {
    forall r :: r in rules ==> !IsRuleSet(r, CLAUDE_LIST) && !IsRuleSet(r, GEMINI_LIST)
  }

  ghost predicate OnList(list: seq<Classifier>, c: Connection) { exists k :: k in list && k in c.traits }

  ghost predicate Carries(target: string, c: Connection, declines: iset<string>) { !c.udp || target !in declines }

  /** The service target a connection is offered when nothing ahead decides it. */
  ghost function Offered(ruleProviders: map<string, RuleProvider>, c: Connection, declines: iset<string>): Option<string> {
    if Hits(ruleProviders, ACL_OPENAI, c) && Carries(OPENAI_TARGET, c, declines) then Some(OPENAI_TARGET)
    else if OnList(CLAUDE_RULES, c) && Carries(CLAUDE_TARGET, c, declines) then Some(CLAUDE_TARGET)
    else if OnList(GEMINI_RULES, c) && Carries(GEMINI_TARGET, c, declines) then Some(GEMINI_TARGET)
    else None
  }

  lemma OfferedIsServiceDecision(ruleProviders: map<string, RuleProvider>, c: Connection, declines: iset<string>)
    ensures Decision(WithServiceLists(ruleProviders), SERVICE_RULES, c, declines) == Offered(ruleProviders, c, declines)
  {
    var after := WithServiceLists(ruleProviders);
    var a, b, d := RuleSet(ACL_OPENAI, OPENAI_TARGET), RuleSet(CLAUDE_LIST, CLAUDE_TARGET), RuleSet(GEMINI_LIST, GEMINI_TARGET);
    assert SERVICE_RULES == [a] + ([b] + [d]);
    DecisionCons(after, a, [b] + [d], c, declines);
    DecisionCons(after, b, [d], c, declines);
    DecisionCons(after, d, [], c, declines);
    assert [d] + [] == [d];
    assert Hits(after, CLAUDE_LIST, c) <==> OnList(CLAUDE_RULES, c);
    assert Hits(after, GEMINI_LIST, c) <==> OnList(GEMINI_RULES, c);
    assert Hits(after, ACL_OPENAI, c) <==> Hits(ruleProviders, ACL_OPENAI, c);
  }

  /** The two lists compared: first what stays ahead, then the services, then the rest. */
  lemma RewriteMeaning(ruleProviders: map<string, RuleProvider>, rules: seq<Rule>, c: Connection, declines: iset<string>)
    requires NoServiceRules(rules)
    ensures var front, back := Decision(ruleProviders, Front(rules), c, declines), Decision(ruleProviders, Back(rules), c, declines);
            Decision(WithServiceLists(ruleProviders), Rewritten(rules), c, declines)
            == if front.Some? then front else if Offered(ruleProviders, c, declines).Some? then Offered(ruleProviders, c, declines) else back
  {
    var after := WithServiceLists(ruleProviders);
    var front, back := Front(rules), Back(rules);
    DecisionAppend(after, front + SERVICE_RULES, back, c, declines);
    DecisionAppend(after, front, SERVICE_RULES, c, declines);
    OfferedIsServiceDecision(ruleProviders, c, declines);
    SameOutsideServiceLists(ruleProviders, front, c, declines);
    SameOutsideServiceLists(ruleProviders, back, c, declines);
  }

  lemma SameOutsideServiceLists(ruleProviders: map<string, RuleProvider>, rules: seq<Rule>, c: Connection, declines: iset<string>)
    requires NoServiceRules(rules)
    ensures Decision(WithServiceLists(ruleProviders), rules, c, declines) == Decision(ruleProviders, rules, c, declines)
  {
    var after := WithServiceLists(ruleProviders);
    forall r | r in rules ensures Takes(ruleProviders, r, c, declines) <==> Takes(after, r, c, declines) {
      if r.kind == "RULE-SET" { assert Hits(after, r.value, c) <==> Hits(ruleProviders, r.value, c); }
    }
    DecisionSameProviders(ruleProviders, after, rules, c, declines);
  }

  /** Removing a provider's rules changes nothing for a connection none of them takes. */
  lemma {:induction false} DecisionWithout(ruleProviders: map<string, RuleProvider>, rules: seq<Rule>, provider: string, c: Connection, declines: iset<string>)
    requires !Hits(ruleProviders, provider, c)
    ensures Decision(ruleProviders, Without(rules, provider), c, declines) == Decision(ruleProviders, rules, c, declines)
  {
    if rules != [] {
      DecisionWithout(ruleProviders, rules[1..], provider, c, declines);
      DecisionCons(ruleProviders, rules[0], Without(rules[1..], provider), c, declines);
    }
  }

  /** The original list, cut at the generic rule, for a connection outside the OpenAI list. */
  lemma OriginalMeaning(ruleProviders: map<string, RuleProvider>, rules: seq<Rule>, c: Connection, declines: iset<string>)
    requires !Hits(ruleProviders, ACL_OPENAI, c)
    ensures Decision(ruleProviders, rules, c, declines)
            == if Decision(ruleProviders, Front(rules), c, declines).Some? then Decision(ruleProviders, Front(rules), c, declines)
               else Decision(ruleProviders, Back(rules), c, declines)
  {
    var ai := Cut(rules, ACL_AI);
    assert rules == rules[..ai] + rules[ai..];
    DecisionAppend(ruleProviders, rules[..ai], rules[ai..], c, declines);
    DecisionWithout(ruleProviders, rules[..ai], ACL_OPENAI, c, declines);
    DecisionWithout(ruleProviders, rules[ai..], ACL_OPENAI, c, declines);
  }

  /** A rule other than the removed one keeps the connections it decides. */
  lemma {:induction false} DecisionPast(ruleProviders: map<string, RuleProvider>, rules: seq<Rule>, provider: string, c: Connection, declines: iset<string>)
    requires var i := Decider(ruleProviders, rules, c, declines); i < |rules| && !IsRuleSet(rules[i], provider)
    ensures Decision(ruleProviders, Without(rules, provider), c, declines) == Decision(ruleProviders, rules, c, declines)
    ensures Decision(ruleProviders, rules, c, declines).Some?
  {
    if Takes(ruleProviders, rules[0], c, declines) {
      DecisionCons(ruleProviders, rules[0], Without(rules[1..], provider), c, declines);
    } else {
      DecisionPast(ruleProviders, rules[1..], provider, c, declines);
      DecisionCons(ruleProviders, rules[0], Without(rules[1..], provider), c, declines);
    }
  }

  lemma {:induction false} DeciderPrefix(ruleProviders: map<string, RuleProvider>, rules: seq<Rule>, n: nat, c: Connection, declines: iset<string>)
    requires n <= |rules| && Decider(ruleProviders, rules, c, declines) < n
    ensures Decider(ruleProviders, rules[..n], c, declines) == Decider(ruleProviders, rules, c, declines)
    ensures Decision(ruleProviders, rules[..n], c, declines) == Decision(ruleProviders, rules, c, declines)
  {
    if !Takes(ruleProviders, rules[0], c, declines) {
      assert rules[..n][1..] == rules[1..][..n - 1];
      DeciderPrefix(ruleProviders, rules[1..], n - 1, c, declines);
    }
  }

  /** A rule ahead of the generic AI rule, the OpenAI rule aside, keeps the connections it decides. */
  lemma AheadKeepsDecision(ruleProviders: map<string, RuleProvider>, rules: seq<Rule>, c: Connection, declines: iset<string>)
    requires NoServiceRules(rules)
    requires var i := Decider(ruleProviders, rules, c, declines);
             i < Cut(rules, ACL_AI) && !IsRuleSet(rules[i], ACL_OPENAI)
    ensures Decision(WithServiceLists(ruleProviders), Rewritten(rules), c, declines) == Decision(ruleProviders, rules, c, declines)
  {
    RewriteMeaning(ruleProviders, rules, c, declines);
    DeciderPrefix(ruleProviders, rules, Cut(rules, ACL_AI), c, declines);
    DecisionPast(ruleProviders, rules[..Cut(rules, ACL_AI)], ACL_OPENAI, c, declines);
  }

  /** Service traffic that nothing ahead decides, and whose target carries it, reaches its service target. */
  lemma ServiceTrafficReachesTarget(ruleProviders: map<string, RuleProvider>, rules: seq<Rule>, c: Connection, declines: iset<string>)
    requires NoServiceRules(rules)
    requires Decision(ruleProviders, Front(rules), c, declines).None? && Offered(ruleProviders, c, declines).Some?
    ensures Decision(WithServiceLists(ruleProviders), Rewritten(rules), c, declines) == Offered(ruleProviders, c, declines)
  {
    RewriteMeaning(ruleProviders, rules, c, declines);
  }

  /** Whether the generic AI rule is the one that decides a connection. */
  ghost predicate DecidedByAi(ruleProviders: map<string, RuleProvider>, rules: seq<Rule>, c: Connection, declines: iset<string>) {
    var i := Decider(ruleProviders, rules, c, declines);
    i < |rules| && IsRuleSet(rules[i], ACL_AI)
  }

  lemma {:induction false} DeciderAtCut(ruleProviders: map<string, RuleProvider>, rules: seq<Rule>, n: nat, c: Connection, declines: iset<string>)
    requires n < |rules| && Decision(ruleProviders, rules[..n], c, declines).None? && Takes(ruleProviders, rules[n], c, declines)
    ensures Decider(ruleProviders, rules, c, declines) == n
  {
    if n > 0 {
      assert rules[..n][1..] == rules[1..][..n - 1];
      DeciderAtCut(ruleProviders, rules[1..], n - 1, c, declines);
    }
  }

  /** On the Claude or Gemini list means on the generic AI list. */
  lemma OfferedIsAiTraffic(ruleProviders: map<string, RuleProvider>, rules: seq<Rule>, c: Connection, declines: iset<string>)
    requires Rewritable(ruleProviders, rules)
    requires !Hits(ruleProviders, ACL_OPENAI, c) && Offered(ruleProviders, c, declines).Some?
    ensures RuleMatches(ruleProviders, rules[Cut(rules, ACL_AI)], c)
  {
    assert Hits(ruleProviders, ACL_AI, c);
  }

  /** Outside the OpenAI list and undecided by the generic AI rule: when old and new decision differ. */
  lemma UndecidedByAiMeaning(ruleProviders: map<string, RuleProvider>, rules: seq<Rule>, c: Connection, declines: iset<string>)
    requires Rewritable(ruleProviders, rules) && NoServiceRules(rules)
    requires !Hits(ruleProviders, ACL_OPENAI, c) && !DecidedByAi(ruleProviders, rules, c, declines)
    ensures Decision(WithServiceLists(ruleProviders), Rewritten(rules), c, declines) == Decision(ruleProviders, rules, c, declines)
            <==> !(Decision(ruleProviders, Front(rules), c, declines).None?
                   && c.udp && AI_GROUP in declines
                   && Offered(ruleProviders, c, declines).Some?
                   && Decision(ruleProviders, Back(rules), c, declines) != Offered(ruleProviders, c, declines))
  {
    var ai := Cut(rules, ACL_AI);
    RewriteMeaning(ruleProviders, rules, c, declines);
    OriginalMeaning(ruleProviders, rules, c, declines);
    if Decision(ruleProviders, Front(rules), c, declines).None? && Offered(ruleProviders, c, declines).Some? {
      OfferedIsAiTraffic(ruleProviders, rules, c, declines);
      DecisionWithout(ruleProviders, rules[..ai], ACL_OPENAI, c, declines);
      if Takes(ruleProviders, rules[ai], c, declines) { DeciderAtCut(ruleProviders, rules, ai, c, declines); }
    }
  }

  /** No rule sends anything to a service target yet. */
  predicate NoServiceTargets(rules: seq<Rule>) { forall r :: r in rules ==> r.target !in {OPENAI_TARGET, CLAUDE_TARGET, GEMINI_TARGET} }

  lemma {:induction false} DecisionIsTarget(ruleProviders: map<string, RuleProvider>, rules: seq<Rule>, c: Connection, declines: iset<string>)
    requires NoServiceTargets(rules)
    ensures Decision(ruleProviders, rules, c, declines).Some? ==>
              Decision(ruleProviders, rules, c, declines).value !in {OPENAI_TARGET, CLAUDE_TARGET, GEMINI_TARGET}
  {
    if rules != [] {
      assert rules[0] in rules && forall r :: r in rules[1..] ==> r in rules;
      DecisionIsTarget(ruleProviders, rules[1..], c, declines);
    }
  }

  lemma OfferedTargets(ruleProviders: map<string, RuleProvider>, c: Connection, declines: iset<string>)
    ensures Offered(ruleProviders, c, declines).Some? ==> Offered(ruleProviders, c, declines).value in {OPENAI_TARGET, CLAUDE_TARGET, GEMINI_TARGET}
  {
  }

  /**
   Outside the OpenAI list, and as long as no rule targets a service yet, a connection the generic AI
   rule did not decide is unchanged, except exactly when nothing ahead takes it, the AI group declines
   it as UDP and a service target carries it.
   */
  lemma UndecidedByAiUnchanged(ruleProviders: map<string, RuleProvider>, rules: seq<Rule>, c: Connection, declines: iset<string>)
    requires Rewritable(ruleProviders, rules) && NoServiceRules(rules) && NoServiceTargets(rules)
    requires !Hits(ruleProviders, ACL_OPENAI, c) && !DecidedByAi(ruleProviders, rules, c, declines)
    ensures Decision(WithServiceLists(ruleProviders), Rewritten(rules), c, declines) == Decision(ruleProviders, rules, c, declines)
            <==> !(Decision(ruleProviders, Front(rules), c, declines).None?
                   && c.udp && AI_GROUP in declines
                   && Offered(ruleProviders, c, declines).Some?)
  {
    UndecidedByAiMeaning(ruleProviders, rules, c, declines);
    assert forall r :: r in Back(rules) ==> r in rules;
    DecisionIsTarget(ruleProviders, Back(rules), c, declines);
    OfferedTargets(ruleProviders, c, declines);
  }

  /** TCP traffic the generic rule did not decide never changes. */
  lemma TcpUndecidedByAiUnchanged(ruleProviders: map<string, RuleProvider>, rules: seq<Rule>, c: Connection, declines: iset<string>)
    requires Rewritable(ruleProviders, rules) && NoServiceRules(rules)
    requires !c.udp && !Hits(ruleProviders, ACL_OPENAI, c) && !DecidedByAi(ruleProviders, rules, c, declines)
    ensures Decision(WithServiceLists(ruleProviders), Rewritten(rules), c, declines) == Decision(ruleProviders, rules, c, declines)
  {
    UndecidedByAiMeaning(ruleProviders, rules, c, declines);
  }

  /** A UDP connection to Claude that used to pass the declining AI group and leave by MATCH is captured. */
  lemma UdpCaptured() returns (ruleProviders: map<string, RuleProvider>, rules: seq<Rule>, c: Connection, declines: iset<string>)
    ensures Rewritable(ruleProviders, rules) && NoServiceRules(rules)
    ensures !Hits(ruleProviders, ACL_OPENAI, c) && Decision(ruleProviders, rules, c, declines) == Some("DIRECT")
    ensures Decision(WithServiceLists(ruleProviders), Rewritten(rules), c, declines) == Some(CLAUDE_TARGET)
  {
    ruleProviders := map[ACL_AI := Inline(CLAUDE_RULES + GEMINI_RULES), ACL_OPENAI := Inline([])];
    var o, a, m := RuleSet(ACL_OPENAI, AI_GROUP), RuleSet(ACL_AI, AI_GROUP), Rule("MATCH", "", "DIRECT", []);
    var k := CLAUDE_RULES[0];
    c, declines := Connection(true, iset{k}), iset{AI_GROUP};
    DifferentLists(o);
    DifferentLists(a);
    rules := [] + [o] + [a, m];
    CutAt([], o, [a, m], ACL_OPENAI);
    assert rules == [o] + [a] + [m];
    CutAt([o], a, [m], ACL_AI);
    assert OnList(CLAUDE_RULES, c);
    assert rules[..1] == [o] && rules[1..] == [a] + [m];
    assert Without([o], ACL_OPENAI) == [];
    WithoutNone([a] + [m], ACL_OPENAI);
    DecisionCons(ruleProviders, a, [m], c, declines);
    assert ([m])[1..] == [];
    RewriteMeaning(ruleProviders, rules, c, declines);
    OriginalMeaning(ruleProviders, rules, c, declines);
  }
}
