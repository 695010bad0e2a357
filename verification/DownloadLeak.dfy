/**
 A candidate the order audit accepts although its Download list has no terminal guard: the manifest's
 `download` source row omits the download scenario, which the declaration audit does not check.
 UDP traffic on that list then reaches the generic AI rule.
 */
module DownloadLeak {
  import opened Ordering
  import opened Results
  import opened Routing
  import opened DownloadAudit

  const TARGET := "下载流量"
  const SHARED := Classifier("DOMAIN-SUFFIX", "shared.example")
  const LISTS := [ListRule("download", TARGET), ListRule("ai", AI_GROUP), ListRule("proxy_media", MEDIA), ListRule("proxy_lite", WEB_GENERAL_AUTO)]

  function Rows(): seq<InlineRow> {
    seq(13, i requires 0 <= i < 13 =>
      InlineRow(Reviews()[i].id, Reviews()[i].kind, Reviews()[i].value, TARGET, Reviews()[i].priority, "general", "download"))
  }

  /** The `download` row is reviewed in every checked field, but its scenario is `general`. */
  function LeakyManifest(): Manifest {
    Manifest(Rows(), [
      SourceRow("download", "Clash/Download.list", TARGET, 103, "general", "general"),
      SourceRow("proxy_lite", "", WEB_GENERAL_AUTO, 120, "general", "general"),
      SourceRow("ai", "", "", 110, "", ""),
      SourceRow("openai", "", "", 110, "", "")
    ])
  }

  function NthRule(i: nat): Rule
    requires i < 30
  {
    if i >= 26 then LISTS[i - 26]
    else if i % 2 == 0 then RuleFor(Reviews()[i / 2], TARGET)
    else Guard(RuleFor(Reviews()[i / 2], TARGET))
  }

  /** Every reviewed rule with its guard, then the unguarded Download rule, AI, media and ProxyLite. */
  function LeakyRules(): seq<Rule> { seq(30, i requires 0 <= i < 30 => NthRule(i)) }

  // ----- telling the constants apart -----

  function ReviewIndex(value: string): int {
    match |value|
    case 19 => 1
    case 6 => 2
    case 10 => 3
    case 9 => 4
    case 7 => 5
    case 15 => 6
    case 11 => if value[0] == 'd' then 0 else if value[0] == 'q' then 7 else 9
    case 16 => 8
    case 8 => if value[3] == '1' then 10 else 11
    case 36 => 12
    case _ => -1
  }

  function IdIndex(id: string): int {
    match |id|
    case 16 => if id[9] == 'i' then 0 else 9
    case 21 => if id[9] == 'a' then 1 else 8
    case 14 => 2
    case 22 => 3
    case 12 => if id[9] == 'i' then 4 else 5
    case 20 => 6
    case 25 => 7
    case 18 => if id[17] == '1' then 10 else 11
    case 30 => 12
    case _ => -1
  }

  lemma ReviewsIndexed(i: nat)
    requires i < 13
    ensures |Reviews()| == 13 && ReviewIndex(Reviews()[i].value) == i && IdIndex(Reviews()[i].id) == i
    ensures |Reviews()[i].kind| != 8
  {
    var r := Reviews();
    assert r[0] == INBOUND;
    if 1 <= i < 10 { assert r[i] == PROCESSES[i - 1]; }
    if 10 <= i { assert r[i] == DOMAINS[i - 10]; }
  }

  function Rank(r: Rule): int {
    if |r.kind| == 8 then (match |r.value| case 16 => 26 case 10 => 27 case 19 => 28 case _ => 29)
    else 2 * ReviewIndex(r.value) + if |r.target| == 6 then 1 else 0
  }

  lemma RankNth(i: nat)
    requires i < 30
    ensures LeakyRules()[i] == NthRule(i) && Rank(NthRule(i)) == i
  {
    if i < 26 {
      ReviewsIndexed(i / 2);
    } else {
      assert |"acl4ssr_" + "download"| == 16 && |"acl4ssr_" + "ai"| == 10;
      assert |"acl4ssr_" + "proxy_media"| == 19 && |"acl4ssr_" + "proxy_lite"| == 18;
    }
  }

  lemma {:induction false} OnceIfDistinct(rules: seq<Rule>, i: nat)
    requires NoDuplicates(rules) && i < |rules|
    ensures Once(rules, rules[i]) && Position(rules, rules[i]) == i
  {
    assert rules == [rules[0]] + rules[1..];
    if i > 0 {
      OnceIfDistinct(rules[1..], i - 1);
      assert rules[1..][i - 1] == rules[i];
    } else {
      assert rules[0] !in rules[1..];
    }
  }

  /** Where each rule of the leaky list stands, and that it stands there once. */
  lemma Placed(i: nat)
    requires i < 30
    ensures Once(LeakyRules(), NthRule(i)) && Position(LeakyRules(), NthRule(i)) == i
  {
    var rules := LeakyRules();
    forall a, b | 0 <= a < b < 30 ensures rules[a] != rules[b] {
      RankNth(a);
      RankNth(b);
    }
    OnceIfDistinct(rules, i);
  }

  lemma {:induction false} RowFound(n: nat, i: nat)
    requires i < n <= 13
    ensures InlineOf(Rows()[..n], Reviews()[i].id) == Some(Rows()[i])
  {
    ReviewsIndexed(i);
    ReviewsIndexed(n - 1);
    assert Rows()[..n][..n - 1] == Rows()[..n - 1];
    if i < n - 1 { RowFound(n - 1, i); }
  }

  lemma {:induction false} SourceFound(rows: seq<SourceRow>, i: nat)
    requires i < |rows| && forall a, b :: 0 <= a < b < |rows| ==> rows[a].id != rows[b].id
    ensures SourceOf(rows, rows[i].id) == Some(rows[i])
  {
    var init := rows[..|rows| - 1];
    if i < |rows| - 1 {
      SourceFound(init, i);
      assert init[i] == rows[i];
    }
  }

  lemma LeakyReviews()
    ensures forall e :: e in Reviews() ==> RowAsReviewed(LeakyManifest(), TARGET, e)
  {
    forall e | e in Reviews() ensures RowAsReviewed(LeakyManifest(), TARGET, e) {
      var i :| 0 <= i < |Reviews()| && Reviews()[i] == e;
      RowFound(13, i);
      assert Rows()[..13] == Rows();
    }
  }

  lemma LeakySources()
    ensures var s := LeakyManifest().sources;
            && SourceOf(s, "download") == Some(s[0]) && SourceOf(s, "proxy_lite") == Some(s[1])
            && SourceOf(s, "ai") == Some(s[2]) && SourceOf(s, "openai") == Some(s[3])
  {
    var s := LeakyManifest().sources;
    assert |s[0].id| == 8 && |s[1].id| == 10 && |s[2].id| == 2 && |s[3].id| == 6;
    SourceFound(s, 0);
    SourceFound(s, 1);
    SourceFound(s, 2);
    SourceFound(s, 3);
  }

  lemma LeakyPriorities()
    ensures forall e, row :: e in PROCESSES && row in LeakyManifest().sources ==> e.priority < row.priority
    ensures forall e :: e in DOMAINS ==> e.priority < 110
  {
    forall row | row in LeakyManifest().sources ensures row.priority >= 103 {}
    forall e | e in PROCESSES ensures e.priority == 2 {}
  }

  lemma LeakyDeclared()
    ensures Declared(LeakyManifest(), TARGET)
  {
    LeakyReviews();
    LeakySources();
    LeakyPriorities();
  }

  lemma {:induction false} AtEvens(rules: seq<Rule>, es: seq<Reviewed>)
    requires AllOnce(rules, TARGET, es)
    requires forall k :: 0 <= k < |es| ==> Position(rules, RuleFor(es[k], TARGET)) == 2 * k + 2
    ensures ProcessPositions(rules, TARGET, es) == Evens(|es|)
  {
    if es != [] {
      AtEvens(rules, es[..|es| - 1]);
      assert Evens(|es|) == Evens(|es| - 1) + [2 * |es|];
    }
  }

  lemma ProcessAt(k: nat)
    requires k < |PROCESSES|
    ensures Once(LeakyRules(), RuleFor(PROCESSES[k], TARGET)) && Position(LeakyRules(), RuleFor(PROCESSES[k], TARGET)) == 2 * k + 2
  {
    Placed(2 * k + 2);
    assert Reviews()[k + 1] == PROCESSES[k];
  }

  lemma LeakyProcesses()
    ensures ProcessesPlaced(LeakyRules(), TARGET)
  {
    var es := PROCESSES;
    forall k | 0 <= k < |es|
      ensures Once(LeakyRules(), RuleFor(es[k], TARGET)) && Position(LeakyRules(), RuleFor(es[k], TARGET)) == 2 * k + 2
    {
      ProcessAt(k);
    }
    AtEvens(LeakyRules(), es);
  }

  lemma LeakyDomains()
    ensures DomainsAhead(LeakyRules(), TARGET, DOMAINS)
  {
    var es := DOMAINS;
    LeakyFirstAi();
    forall k | 0 <= k < |es|
      ensures Once(LeakyRules(), RuleFor(es[k], TARGET)) && Position(LeakyRules(), RuleFor(es[k], TARGET)) < 27
    {
      Placed(2 * (k + 10));
      assert Reviews()[k + 10] == es[k];
    }
  }

  lemma LeakyFirstAi()
    ensures FirstAi(LeakyRules()) == 27
  {
    var rules := LeakyRules();
    forall j | 0 <= j < 27 ensures !IsAiRule(rules[j]) {
      if j < 26 {
        ReviewsIndexed(j / 2);
        assert |"RULE-SET"| == 8;
      } else {
        DownloadListNotAi(TARGET);
      }
    }
    assert "acl4ssr_" + "ai" == "acl4ssr_ai";
    assert IsAiRule(rules[27]);
  }

  lemma {:induction false} OnlyInline(n: nat, p: Rule)
    requires n <= 13 && p in InlinePrimaries(LeakyManifest(), Rows()[13 - n..], TARGET)
    ensures exists i: nat :: i < 13 && p == RuleFor(Reviews()[i], TARGET)
  {
    var rows := Rows()[13 - n..];
    if n > 0 {
      var i := 13 - n;
      assert rows[0] == Rows()[i] && rows[1..] == Rows()[13 - (n - 1)..];
      RowFound(13, i);
      assert Rows()[..13] == Rows();
      if p != RuleFor(Reviews()[i], TARGET) { OnlyInline(n - 1, p); }
    }
  }

  lemma NthReview(i: nat)
    requires i < 13 == |Reviews()|
    ensures NthRule(2 * i) == RuleFor(Reviews()[i], TARGET) && NthRule(2 * i + 1) == Guard(RuleFor(Reviews()[i], TARGET))
  {
    var k := 2 * i + 1;
    assert k % 2 == 1 && k / 2 == i;
  }

  lemma ReviewGuarded(i: nat)
    requires i < 13 == |Reviews()|
    ensures Guarded(LeakyRules(), RuleFor(Reviews()[i], TARGET))
  {
    NthReview(i);
    var p := NthRule(2 * i);
    Placed(2 * i);
    Placed(2 * i + 1);
    assert Guarded(LeakyRules(), p);
  }

  lemma LeakyGuarded()
    ensures AllGuarded(LeakyRules(), Primaries(LeakyManifest(), TARGET))
  {
    var m := LeakyManifest();
    assert |"download"| == 8 && |"general"| == 7;
    NoListPrimaries(m.sources);
    assert Rows()[0..] == Rows();
    forall p | p in Primaries(m, TARGET) ensures Guarded(LeakyRules(), p) {
      OnlyInline(13, p);
      var i: nat :| i < 13 && p == RuleFor(Reviews()[i], TARGET);
      ReviewsIndexed(i);
      ReviewGuarded(i);
    }
  }

  lemma {:induction false} NoListPrimaries(rows: seq<SourceRow>)
    requires forall row :: row in rows ==> row.scenario != "download"
    ensures ListPrimaries(rows, TARGET) == []
  {
    if rows != [] { NoListPrimaries(rows[1..]); }
  }

  lemma LeakyLists()
    ensures ListAhead(LeakyRules(), TARGET) && GenericBehind(LeakyRules()) && InboundFirst(LeakyRules(), TARGET)
  {
    LeakyFirstAi();
    Placed(0);
    Placed(26);
    Placed(28);
    Placed(29);
  }

  lemma LeakyAccepted()
    ensures Accepted(LeakyManifest(), LeakyRules(), TARGET)
  {
    LeakyDeclared();
    LeakyProcesses();
    LeakyFirstAi();
    LeakyDomains();
    LeakyLists();
    LeakyGuarded();
  }

  lemma InlineRuleMisses(ruleProviders: map<string, RuleProvider>, i: nat)
    requires i < 26
    ensures !RuleMatches(ruleProviders, NthRule(i), Connection(true, iset{SHARED}))
  {
    ReviewsIndexed(i / 2);
    NotRuleSet(Reviews()[i / 2]);
    assert |SHARED.value| == 14;
  }

  /** Whatever the providers, only the Download rule and the AI rule can take such a connection early. */
  lemma ReachesListRules(ruleProviders: map<string, RuleProvider>, declines: iset<string>)
    ensures Decider(ruleProviders, LeakyRules(), Connection(true, iset{SHARED}), declines) >= 26
  {
    var c, rules := Connection(true, iset{SHARED}), LeakyRules();
    var i := Decider(ruleProviders, rules, c, declines);
    DeciderFirst(ruleProviders, rules, c, declines);
    if i < 26 { InlineRuleMisses(ruleProviders, i); }
  }

  lemma ListRulesTake(ruleProviders: map<string, RuleProvider>, c: Connection)
    requires Hits(ruleProviders, "acl4ssr_ai", c)
    ensures !c.udp || !Takes(ruleProviders, LeakyRules()[26], c, iset{TARGET})
    ensures Takes(ruleProviders, LeakyRules()[27], c, iset{TARGET})
  {
    assert "acl4ssr_" + "ai" == "acl4ssr_ai";
    assert |"REJECT"| == 6 && |TARGET| == 4;
    assert LeakyRules()[27].target[0] != TARGET[0];
  }

  lemma LeakedConnection() returns (ruleProviders: map<string, RuleProvider>, c: Connection, declines: iset<string>)
    ensures Hits(ruleProviders, "acl4ssr_download", c)
    ensures Decider(ruleProviders, LeakyRules(), c, declines) == 27
  {
    var list := RuleProvider("inline", "classical", [SHARED]);
    ruleProviders := map["acl4ssr_download" := list, "acl4ssr_ai" := list];
    c, declines := Connection(true, iset{SHARED}), iset{TARGET};
    assert SHARED in list.payload;
    ListRulesTake(ruleProviders, c);
    DeciderNoLater(ruleProviders, LeakyRules(), c, declines, 27);
    ReachesListRules(ruleProviders, declines);
    DeciderFirst(ruleProviders, LeakyRules(), c, declines);
  }

  /** The accepted candidate sends a UDP connection on the Download list to the generic AI rule. */
  lemma DownloadListLeak() returns (ruleProviders: map<string, RuleProvider>, c: Connection, declines: iset<string>)
    ensures Accepted(LeakyManifest(), LeakyRules(), TARGET)
    ensures Hits(ruleProviders, "acl4ssr_download", c)
    ensures var i := Decider(ruleProviders, LeakyRules(), c, declines); i < |LeakyRules()| && IsAiRule(LeakyRules()[i])
  {
    ruleProviders, c, declines := LeakedConnection();
    LeakyFirstAi();
    LeakyAccepted();
  }
}
