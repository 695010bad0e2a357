/** The rewritten rule list meets the validator's rule checks when the original one does. */
module RewrittenRules {
  import opened Routing
  import opened ServiceRules

  lemma {:induction false} WithoutDistinct(rules: seq<Rule>, provider: string)
    requires NoDuplicateRules(rules)
    ensures NoDuplicateRules(Without(rules, provider))
  {
    if rules != [] {
      WithoutDistinct(rules[1..], provider);
      if !IsRuleSet(rules[0], provider) { AheadDistinct(rules[0], rules[1..], Without(rules[1..], provider)); }
    }
  }

  lemma AheadDistinct(r: Rule, rules: seq<Rule>, kept: seq<Rule>)
    requires NoDuplicateRules([r] + rules) && NoDuplicateRules(kept) && forall x :: x in kept ==> x in rules
    ensures NoDuplicateRules([r] + kept)
  {
    var all := [r] + rules;
    forall i | 0 <= i < |rules| ensures rules[i] != r { assert all[0] == r && all[i + 1] == rules[i]; }
    assert r !in rules;
    assert forall i :: 0 <= i < |kept| ==> kept[i] in kept;
  }

  lemma {:induction false} WithoutLast(rules: seq<Rule>, provider: string)
    requires EndsInMatch(rules)
    ensures EndsInMatch(Without(rules, provider))
  {
    var n := |rules| - 1;
    assert rules == rules[..n] + [rules[n]];
    WithoutAppend(rules[..n], [rules[n]], provider);
    assert Without([rules[n]], provider) == [rules[n]];
  }

  /** Splicing in distinct rules not in the list repeats nothing. */
  lemma SpliceDistinct(a: seq<Rule>, s: seq<Rule>, b: seq<Rule>)
    requires NoDuplicateRules(a + b) && NoDuplicateRules(s) && forall r :: r in s ==> r !in a && r !in b
    ensures NoDuplicateRules(a + s + b)
  {
    var ab, all := a + b, a + s + b;
    forall i, j | 0 <= i < j < |all| ensures all[i] != all[j] {
      Place(a, s, b, i);
      Place(a, s, b, j);
      var k := if i < |a| then i else if i < |a| + |s| then 0 else i - |s|;
      var l := if j < |a| then j else if j < |a| + |s| then 0 else j - |s|;
    }
  }

  lemma Place(a: seq<Rule>, s: seq<Rule>, b: seq<Rule>, i: nat)
    requires i < |a + s + b|
    ensures (a + s + b)[i] == if i < |a| then (a + b)[i] else if i < |a| + |s| then s[i - |a|] else (a + b)[i - |s|]
    ensures if i < |a| then (a + s + b)[i] in a else if i < |a| + |s| then (a + s + b)[i] in s else (a + s + b)[i] in b
  {
  }

  lemma ServiceRulesNew(rules: seq<Rule>)
    requires NoServiceTargets(rules)
    ensures NoDuplicateRules(SERVICE_RULES) && forall r :: r in SERVICE_RULES ==> r !in rules
  {
    assert OPENAI_TARGET[16] == 'O' && CLAUDE_TARGET[16] == 'C' && GEMINI_TARGET[16] == 'G';
  }

  lemma RewrittenDistinct(rules: seq<Rule>)
    requires NoServiceTargets(rules) && NoDuplicateRules(rules)
    ensures NoDuplicateRules(Rewritten(rules))
  {
    var cut := Cut(rules, ACL_AI);
    assert rules == rules[..cut] + rules[cut..];
    WithoutAppend(rules[..cut], rules[cut..], ACL_OPENAI);
    WithoutDistinct(rules, ACL_OPENAI);
    ServiceRulesNew(rules);
    SpliceDistinct(Front(rules), SERVICE_RULES, Back(rules));
  }

  lemma RewrittenEnds(rules: seq<Rule>)
    requires Cut(rules, ACL_AI) < |rules| && EndsInMatch(rules)
    ensures EndsInMatch(Rewritten(rules))
  {
    SuffixEnds(rules, Cut(rules, ACL_AI));
    WithoutLast(rules[Cut(rules, ACL_AI)..], ACL_OPENAI);
    EndsAfter(Front(rules) + SERVICE_RULES, Back(rules));
  }

  lemma SuffixEnds(rules: seq<Rule>, i: nat)
    requires i < |rules| && EndsInMatch(rules)
    ensures EndsInMatch(rules[i..])
  {
  }

  lemma EndsAfter(a: seq<Rule>, b: seq<Rule>)
    requires EndsInMatch(b)
    ensures EndsInMatch(a + b)
  {
  }

  lemma RewrittenFrom(rules: seq<Rule>, r: Rule)
    requires r in Rewritten(rules)
    ensures r in rules || r in SERVICE_RULES
  {
  }

  lemma ServiceListsKnown(ruleProviders: map<string, RuleProvider>, r: Rule)
    requires ACL_OPENAI in ruleProviders && r in SERVICE_RULES
    ensures r.value in WithServiceLists(ruleProviders) && r.target in {OPENAI_TARGET, CLAUDE_TARGET, GEMINI_TARGET}
  {
  }

  lemma RewrittenKnown(ruleProviders: map<string, RuleProvider>, rules: seq<Rule>)
    requires ACL_OPENAI in ruleProviders && ListsKnown(ruleProviders, rules)
    ensures ListsKnown(WithServiceLists(ruleProviders), Rewritten(rules))
  {
    forall r | r in Rewritten(rules) && r.kind == "RULE-SET" ensures r.value in WithServiceLists(ruleProviders) {
      RewrittenFrom(rules, r);
      if r in SERVICE_RULES { ServiceListsKnown(ruleProviders, r); }
    }
  }
}
