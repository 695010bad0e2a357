/** Exactly which rule lists keep ACL4SSR Download traffic away from the AI rules. */
module DownloadExact {
  import opened Routing
  import opened ServiceRules
  import opened DownloadAudit

  const DOWNLOAD_LIST := "acl4ssr_download"

  /** Rules that match every connection on the Download list. */
  predicate TakesDownloads(r: Rule) { r.kind == "MATCH" || IsRuleSet(r, DOWNLOAD_LIST) }

  /** Nothing ahead of the `j`-th rule stops a download that the rule's target carries and the others decline. */
  predicate OpenTo(rules: seq<Rule>, j: nat)
    requires j < |rules|
  {
    forall i :: 0 <= i < j && TakesDownloads(rules[i]) ==> rules[i].target != "REJECT" && rules[i].target != rules[j].target
  }

  predicate Leaks(rules: seq<Rule>) { exists j :: 0 <= j < |rules| && IsAiRule(rules[j]) && OpenTo(rules, j) }

  ghost predicate DecidedByAnAiRule(ruleProviders: map<string, RuleProvider>, rules: seq<Rule>, c: Connection, declines: iset<string>) {
    var i := Decider(ruleProviders, rules, c, declines);
    i < |rules| && IsAiRule(rules[i])
  }

  /** No Download traffic is ever decided by an AI rule, whatever the lists hold and whoever declines UDP. */
  ghost predicate Isolated(rules: seq<Rule>) {
    forall ruleProviders, c, declines :: Hits(ruleProviders, DOWNLOAD_LIST, c) ==> !DecidedByAnAiRule(ruleProviders, rules, c, declines)
  }

  lemma StoppedAhead(rules: seq<Rule>, ruleProviders: map<string, RuleProvider>, c: Connection, declines: iset<string>)
    requires !Leaks(rules) && Hits(ruleProviders, DOWNLOAD_LIST, c)
    ensures !DecidedByAnAiRule(ruleProviders, rules, c, declines)
  {
    var j := Decider(ruleProviders, rules, c, declines);
    DeciderFirst(ruleProviders, rules, c, declines);
    if j < |rules| && IsAiRule(rules[j]) {
      assert !OpenTo(rules, j);
      var i :| 0 <= i < j && TakesDownloads(rules[i]) && (rules[i].target == "REJECT" || rules[i].target == rules[j].target);
      AlsoTakes(ruleProviders, rules[i], rules[j], c, declines);
    }
  }

  lemma AlsoTakes(ruleProviders: map<string, RuleProvider>, r: Rule, s: Rule, c: Connection, declines: iset<string>)
    requires TakesDownloads(r) && Hits(ruleProviders, DOWNLOAD_LIST, c) && Takes(ruleProviders, s, c, declines)
    requires r.target == "REJECT" || r.target == s.target
    ensures Takes(ruleProviders, r, c, declines)
  {
  }

  /** A classifier no rule of the list names. */
  lemma {:induction false} Fresh(rules: seq<Rule>, n: nat) returns (k: Classifier)
    ensures |k.value| >= n && forall r :: r in rules ==> Classifier(r.kind, r.value) != k
  {
    if rules == [] {
      k := Classifier("", seq(n, i => 'a'));
    } else {
      var last := rules[|rules| - 1];
      k := Fresh(rules[..|rules| - 1], if n > |last.value| then n else |last.value| + 1);
      assert rules == rules[..|rules| - 1] + [last];
    }
  }

  predicate IsOther(t: string, target: string) { t != "REJECT" && t != target }

  /** Every target but this one and REJECT. */
  ghost function AllBut(target: string): iset<string> { iset t: string | IsOther(t, target) }

  /** Any rule up to `j` that takes the probing connection is an AI rule. */
  lemma TakerIsAi(rules: seq<Rule>, j: nat, i: nat, k: Classifier, ruleProviders: map<string, RuleProvider>, c: Connection, declines: iset<string>)
    requires j < |rules| && IsAiRule(rules[j]) && OpenTo(rules, j) && i <= j
    requires forall r :: r in rules ==> Classifier(r.kind, r.value) != k
    requires c == Connection(true, iset{k}) && declines == AllBut(rules[j].target)
    requires ruleProviders.Keys == {DOWNLOAD_LIST, rules[j].value} && Takes(ruleProviders, rules[i], c, declines)
    ensures IsAiRule(rules[i])
  {
    assert rules[i] in rules;
    if i < j && !TakesDownloads(rules[i]) {
      assert rules[i].kind == "RULE-SET" && rules[i].value in ruleProviders;
    }
  }

  lemma LeakExists(rules: seq<Rule>, j: nat) returns (ruleProviders: map<string, RuleProvider>, c: Connection, declines: iset<string>)
    requires j < |rules| && IsAiRule(rules[j]) && OpenTo(rules, j)
    ensures Hits(ruleProviders, DOWNLOAD_LIST, c) && DecidedByAnAiRule(ruleProviders, rules, c, declines)
  {
    var k := Fresh(rules, 0);
    var list := RuleProvider("inline", "classical", [k]);
    ruleProviders := map[DOWNLOAD_LIST := list, rules[j].value := list];
    c, declines := Connection(true, iset{k}), AllBut(rules[j].target);
    assert k in list.payload;
    assert Takes(ruleProviders, rules[j], c, declines);
    DeciderNoLater(ruleProviders, rules, c, declines, j);
    DeciderFirst(ruleProviders, rules, c, declines);
    TakerIsAi(rules, j, Decider(ruleProviders, rules, c, declines), k, ruleProviders, c, declines);
  }

  /** Download traffic stays clear of the AI rules exactly when the scan for an open AI rule finds none. */
  lemma IsolatedExactly(rules: seq<Rule>)
    ensures Isolated(rules) <==> !Leaks(rules)
  {
    if Leaks(rules) {
      var j :| 0 <= j < |rules| && IsAiRule(rules[j]) && OpenTo(rules, j);
      var ruleProviders, c, declines := LeakExists(rules, j);
    } else {
      forall ruleProviders, c, declines | Hits(ruleProviders, DOWNLOAD_LIST, c) ensures !DecidedByAnAiRule(ruleProviders, rules, c, declines) {
        StoppedAhead(rules, ruleProviders, c, declines);
      }
    }
  }

  /** An accepted list whose Download source declares the download scenario is isolated. */
  lemma DeclaredScenarioIsolates(m: Manifest, rules: seq<Rule>, target: string)
    requires Accepted(m, rules, target) && SourceOf(m.sources, "download").value.scenario == "download"
    ensures Isolated(rules) && !Leaks(rules)
  {
    forall ruleProviders, c, declines | Hits(ruleProviders, DOWNLOAD_LIST, c) ensures !DecidedByAnAiRule(ruleProviders, rules, c, declines) {
      DownloadListNeverAi(m, rules, target, ruleProviders, c, declines);
    }
    IsolatedExactly(rules);
  }
}
