/** The static audit of the emitted rule order, and the routing guarantee it is worth. */
module DownloadAudit {
  import opened Results
  import opened Routing

  datatype InlineRow = InlineRow(id: string, kind: string, value: string, target: string, priority: int, sourceUse: string, scenario: string)

  /** An absent scenario is empty. */
  datatype SourceRow = SourceRow(id: string, path: string, target: string, priority: int, sourceUse: string, scenario: string)

  datatype Manifest = Manifest(inlineRows: seq<InlineRow>, sources: seq<SourceRow>)

  /** A reviewed classifier: its row id and what the row must say. */
  datatype Reviewed = Reviewed(id: string, kind: string, value: string, priority: int)

  const WEB_GENERAL_AUTO := "网页通用自动"
  const MEDIA := "流媒体"
  const INBOUND := Reviewed("download_inbound", "IN-NAME", "download-in", 1)
  const PROCESSES := [
    Reviewed("download_android_play", "PROCESS-NAME", "com.android.vending", 2),
    Reviewed("download_aria2", "PROCESS-NAME", "aria2c", 2),
    Reviewed("download_aria2_windows", "PROCESS-NAME", "aria2c.exe", 2),
    Reviewed("download_idm", "PROCESS-NAME", "IDMan.exe", 2),
    Reviewed("download_fdm", "PROCESS-NAME", "fdm.exe", 2),
    Reviewed("download_qbittorrent", "PROCESS-NAME", "qbittorrent.exe", 2),
    Reviewed("download_qbittorrent_unix", "PROCESS-NAME", "qbittorrent", 2),
    Reviewed("download_transmission", "PROCESS-NAME", "transmission-gtk", 2),
    Reviewed("download_thunder", "PROCESS-NAME", "Thunder.exe", 2)
  ]
  const DOMAINS := [
    Reviewed("download_play_gvt1", "DOMAIN-SUFFIX", "gvt1.com", 101),
    Reviewed("download_play_gvt2", "DOMAIN-SUFFIX", "gvt2.com", 101),
    Reviewed("download_github_release_assets", "DOMAIN", "release-assets.githubusercontent.com", 102)
  ]

  function Reviews(): seq<Reviewed> { [INBOUND] + PROCESSES + DOMAINS }

  /** The row a dictionary keyed by id holds: the last one. */
  function InlineOf(rows: seq<InlineRow>, id: string): (r: Option<InlineRow>)
    ensures r.Some? ==> r.value in rows && r.value.id == id
  {
    if rows == [] then None
    else if rows[|rows| - 1].id == id then Some(rows[|rows| - 1])
    else InlineOf(rows[..|rows| - 1], id)
  }

  function SourceOf(rows: seq<SourceRow>, id: string): (r: Option<SourceRow>)
    ensures r.Some? ==> r.value in rows && r.value.id == id
  {
    if rows == [] then None
    else if rows[|rows| - 1].id == id then Some(rows[|rows| - 1])
    else SourceOf(rows[..|rows| - 1], id)
  }

  predicate RowAsReviewed(m: Manifest, target: string, e: Reviewed) {
    var row := InlineOf(m.inlineRows, e.id);
    && row.Some? && row.value.target == target && row.value.sourceUse == "general" && row.value.scenario == "download"
    && row.value.kind == e.kind && row.value.value == e.value && row.value.priority == e.priority
  }

  /** The declaration facts the order audit relies on. */
  predicate Declared(m: Manifest, target: string) {
    && (forall e :: e in Reviews() ==> RowAsReviewed(m, target, e))
    && var download, lite, ai, openai := SourceOf(m.sources, "download"), SourceOf(m.sources, "proxy_lite"), SourceOf(m.sources, "ai"), SourceOf(m.sources, "openai");
    && download.Some? && download.value.path == "Clash/Download.list" && download.value.target == target && download.value.sourceUse == "general"
    && lite.Some? && lite.value.target == WEB_GENERAL_AUTO && lite.value.sourceUse == "general" && lite.value.scenario == "general"
    && ai.Some? && openai.Some?
    && (forall e, row :: e in PROCESSES && row in m.sources ==> e.priority < row.priority)
    && (forall e :: e in DOMAINS ==> e.priority < ai.value.priority && e.priority < openai.value.priority)
    && download.value.priority < ai.value.priority && download.value.priority < openai.value.priority
  }

  function Primary(kind: string, value: string, target: string): Rule { Rule(kind, value, target, []) }

  function RuleFor(e: Reviewed, target: string): Rule { Primary(e.kind, e.value, target) }

  function Guard(primary: Rule): Rule { primary.(target := "REJECT") }

  function ListRule(id: string, target: string): Rule { Primary("RULE-SET", "acl4ssr_" + id, target) }

  predicate IsAiRule(r: Rule) {
    r.kind == "RULE-SET" && (r.value == "acl4ssr_ai" || r.value == "acl4ssr_openai" || r.value == "cr_openai_app" || "cr_ai_rules_" <= r.value)
  }

  function FirstAi(rules: seq<Rule>): (i: nat)
    ensures i <= |rules|
    ensures i < |rules| ==> IsAiRule(rules[i])
    ensures forall j :: 0 <= j < i ==> !IsAiRule(rules[j])
  {
    if rules == [] || IsAiRule(rules[0]) then 0
    else
      var i := FirstAi(rules[1..]);
      assert forall j :: 1 <= j < 1 + i ==> rules[j] == rules[1..][j - 1];
      1 + i
  }

  predicate Once(rules: seq<Rule>, r: Rule) { multiset(rules)[r] == 1 }

  function IndexOf(rules: seq<Rule>, r: Rule): (i: nat)
    requires r in rules
    ensures i < |rules| && rules[i] == r
  {
    if rules[0] == r then 0 else 1 + IndexOf(rules[1..], r)
  }

  lemma OncePresent(rules: seq<Rule>, r: Rule)
    requires Once(rules, r)
    ensures r in rules
  {
    assert r in multiset(rules);
  }

  /** The position of a rule that occurs once. */
  function Position(rules: seq<Rule>, r: Rule): (i: nat)
    requires Once(rules, r)
    ensures i < |rules| && rules[i] == r
  {
    OncePresent(rules, r);
    IndexOf(rules, r)
  }

  /** The primary rules of every row declared for downloads, inline rows first. */
  function InlinePrimaries(m: Manifest, rows: seq<InlineRow>, target: string): (r: seq<Rule>)
    requires forall row :: row in rows ==> row in m.inlineRows
    ensures forall row :: row in rows && row.scenario == "download" ==> InlinePrimary(m, row.id, target) in r
  {
    if rows == [] then []
    else (if rows[0].scenario == "download" then [InlinePrimary(m, rows[0].id, target)] else []) + InlinePrimaries(m, rows[1..], target)
  }

  /** `rule_for`: rendered from the row the id finds. */
  function InlinePrimary(m: Manifest, id: string, target: string): Rule {
    var row := InlineOf(m.inlineRows, id);
    if row.None? then Primary("", "", target) else Primary(row.value.kind, row.value.value, target)
  }

  function ListPrimaries(rows: seq<SourceRow>, target: string): (r: seq<Rule>)
    ensures forall row :: row in rows && row.scenario == "download" ==> ListRule(row.id, target) in r
  {
    if rows == [] then []
    else (if rows[0].scenario == "download" then [ListRule(rows[0].id, target)] else []) + ListPrimaries(rows[1..], target)
  }

  function Primaries(m: Manifest, target: string): seq<Rule> {
    InlinePrimaries(m, m.inlineRows, target) + ListPrimaries(m.sources, target)
  }

  predicate Guarded(rules: seq<Rule>, primary: Rule) {
    Once(rules, primary) && Once(rules, Guard(primary)) && Position(rules, Guard(primary)) == Position(rules, primary) + 1
  }

  function Evens(n: nat): seq<nat> { seq(n, i requires 0 <= i < n => 2 + 2 * i) }

  function ProcessPositions(rules: seq<Rule>, target: string, es: seq<Reviewed>): seq<nat>
    requires forall e :: e in es ==> Once(rules, RuleFor(e, target))
  {
    if es == [] then [] else ProcessPositions(rules, target, es[..|es| - 1]) + [Position(rules, RuleFor(es[|es| - 1], target))]
  }

  predicate InboundFirst(rules: seq<Rule>, target: string) {
    rules != [] && rules[0] == RuleFor(INBOUND, target) && Once(rules, RuleFor(INBOUND, target))
  }

  predicate AllOnce(rules: seq<Rule>, target: string, es: seq<Reviewed>) { forall e :: e in es ==> Once(rules, RuleFor(e, target)) }

  /** The process rules sit exactly at the even positions after the inbound pair. */
  predicate ProcessesPlaced(rules: seq<Rule>, target: string) {
    AllOnce(rules, target, PROCESSES) && multiset(ProcessPositions(rules, target, PROCESSES)) == multiset(Evens(|PROCESSES|))
  }

  predicate DomainsAhead(rules: seq<Rule>, target: string, es: seq<Reviewed>) {
    forall e :: e in es ==> Once(rules, RuleFor(e, target)) && Position(rules, RuleFor(e, target)) < FirstAi(rules)
  }

  predicate ListAhead(rules: seq<Rule>, target: string) {
    Once(rules, ListRule("download", target)) && Position(rules, ListRule("download", target)) < FirstAi(rules)
  }

  predicate GenericBehind(rules: seq<Rule>) {
    && Once(rules, ListRule("proxy_media", MEDIA)) && Once(rules, ListRule("proxy_lite", WEB_GENERAL_AUTO))
    && FirstAi(rules) < Position(rules, ListRule("proxy_media", MEDIA)) < Position(rules, ListRule("proxy_lite", WEB_GENERAL_AUTO))
  }

  predicate AllGuarded(rules: seq<Rule>, primaries: seq<Rule>) { forall p :: p in primaries ==> Guarded(rules, p) }

  /** What the audit accepts, clause by clause. */
  predicate Accepted(m: Manifest, rules: seq<Rule>, target: string) {
    && Declared(m, target)
    && InboundFirst(rules, target)
    && ProcessesPlaced(rules, target)
    && FirstAi(rules) < |rules|
    && DomainsAhead(rules, target, DOMAINS)
    && ListAhead(rules, target)
    && GenericBehind(rules)
    && AllGuarded(rules, Primaries(m, target))
  }

  /** `extra` stands for keys a listener of this kind does not have. */
  datatype Listener = Listener(name: string, kind: string, listen: string, port: int, proxy: string, extra: map<string, string>)

  /** The emitted candidate as far as the audit looks at it. */
  datatype Candidate = Candidate(mode: string, rules: seq<Rule>, listeners: seq<Listener>)

  datatype Inbound = Inbound(enabled: bool, port: int)

  /** The runtime section of the project. */
  datatype Runtime = Runtime(mode: string, mixedPort: int, inbound: Option<Inbound>)

  datatype Status = NotApplicable | Passed(guards: nat)

  /** The project declares a download inbound of its own, in rule mode. */
  predicate InboundDeclared(runtime: Runtime) {
    runtime.inbound.Some? && runtime.inbound.value.enabled && runtime.mode == "rule" && runtime.inbound.value.port != runtime.mixedPort
  }

  /** One listener binds it to the download target. */
  predicate Bound(c: Candidate, port: int, target: string) {
    multiset(c.listeners)[Listener("download-in", "mixed", "127.0.0.1", port, target, map[])] == 1
  }

  /** The audit of a candidate; it applies to the canonical project only, and reports how many terminal guards it checked. */
  method AuditRuleOrder(canonical: bool, m: Manifest, c: Candidate, runtime: Runtime, target: string) returns (r: Result<Status>)
    ensures r.Ok? <==> canonical ==> && InboundDeclared(runtime) && c.mode == "rule" && Accepted(m, c.rules, target)
                                     && Bound(c, runtime.inbound.value.port, target)
    ensures r.Ok? ==> r.value == if canonical then Passed(|Primaries(m, target)|) else NotApplicable
  {
    if !canonical { return Ok(NotApplicable); }
    if !Declared(m, target) || !InboundDeclared(runtime) { return Raised("declaration"); }
    if c.mode != "rule" { return Raised("download classifier isolation requires rule mode"); }
    var guards := AuditRules(m, c.rules, target);
    if guards.Raised? { return Raised(guards.reason); }
    if !Bound(c, runtime.inbound.value.port, target) { return Raised("download-only listener is missing or changed"); }
    return Ok(Passed(guards.value));
  }

  method AuditRules(m: Manifest, rules: seq<Rule>, target: string) returns (r: Result<nat>)
    requires Declared(m, target)
    ensures r.Ok? <==> Accepted(m, rules, target)
    ensures r.Ok? ==> r.value == |Primaries(m, target)|
  {
    if !InboundFirst(rules, target) { return Raised("download inbound is not the first emitted rule"); }
    var placed := AuditProcesses(rules, target);
    if !placed { return Raised("download processes must precede every domain rule"); }
    if FirstAi(rules) == |rules| { return Raised("download isolation requires AI routing rules"); }
    var ahead := AuditDomains(rules, target);
    if !ahead { return Raised("download domain rule must precede AI"); }
    if !ListAhead(rules, target) { return Raised("ACL4SSR Download must precede AI"); }
    if !GenericBehind(rules) { return Raised("AI, media, and generic routing order drifted"); }
    var primaries := Primaries(m, target);
    var guarded := AuditGuards(rules, primaries);
    if !guarded { return Raised("download terminal guard is missing, duplicated or not adjacent"); }
    return Ok(|primaries|);
  }

  method AuditProcesses(rules: seq<Rule>, target: string) returns (ok: bool)
    ensures ok <==> ProcessesPlaced(rules, target)
  {
    var es := PROCESSES;
    var positions: seq<nat> := [];
    for k := 0 to |es|
      invariant AllOnce(rules, target, es[..k])
      invariant positions == ProcessPositions(rules, target, es[..k])
    {
      assert es[k] in es;
      if !Once(rules, RuleFor(es[k], target)) { return false; }
      positions := positions + [Position(rules, RuleFor(es[k], target))];
      assert es[..k + 1] == es[..k] + [es[k]];
    }
    assert es[..|es|] == es;
    return multiset(positions) == multiset(Evens(|PROCESSES|));
  }

  method AuditDomains(rules: seq<Rule>, target: string) returns (ok: bool)
    ensures ok <==> DomainsAhead(rules, target, DOMAINS)
  {
    var es := DOMAINS;
    for k := 0 to |es|
      invariant DomainsAhead(rules, target, es[..k])
    {
      assert es[k] in es;
      var expected := RuleFor(es[k], target);
      if !Once(rules, expected) || Position(rules, expected) >= FirstAi(rules) { return false; }
    }
    assert es[..|es|] == es;
    return true;
  }

  method AuditGuards(rules: seq<Rule>, primaries: seq<Rule>) returns (ok: bool)
    ensures ok <==> AllGuarded(rules, primaries)
  {
    for k := 0 to |primaries|
      invariant AllGuarded(rules, primaries[..k])
    {
      assert primaries[k] in primaries;
      if !Guarded(rules, primaries[k]) { return false; }
    }
    assert primaries[..|primaries|] == primaries;
    return true;
  }

  // ----- what the audit guarantees -----

  lemma DeciderNoLater(ruleProviders: map<string, RuleProvider>, rules: seq<Rule>, c: Connection, declines: iset<string>, i: nat)
    requires i < |rules| && Takes(ruleProviders, rules[i], c, declines)
    ensures Decider(ruleProviders, rules, c, declines) <= i
  {
    DeciderFirst(ruleProviders, rules, c, declines);
  }

  /** Every reviewed inline classifier is among the guarded rows. */
  lemma ReviewedIsGuarded(m: Manifest, rules: seq<Rule>, target: string, e: Reviewed)
    requires Accepted(m, rules, target) && e in Reviews()
    ensures Guarded(rules, RuleFor(e, target))
  {
    assert RowAsReviewed(m, target, e);
    var row := InlineOf(m.inlineRows, e.id).value;
    assert InlinePrimary(m, row.id, target) in InlinePrimaries(m, m.inlineRows, target);
    assert InlinePrimary(m, row.id, target) == RuleFor(e, target);
    assert RuleFor(e, target) in Primaries(m, target);
  }

  /** The Download list is among the guarded rows when its source row says so. */
  lemma DownloadListIsGuarded(m: Manifest, rules: seq<Rule>, target: string)
    requires Accepted(m, rules, target) && SourceOf(m.sources, "download").value.scenario == "download"
    ensures Guarded(rules, ListRule("download", target))
  {
    var row := SourceOf(m.sources, "download").value;
    assert ListRule(row.id, target) in ListPrimaries(m.sources, target);
    assert ListRule("download", target) in Primaries(m, target);
  }

  /**
   The dynamic guarantee: a connection matching any guarded download rule is decided no later than
   the adjacent REJECT guard, whatever targets decline UDP.
   */
  lemma GuardedIsTerminal(m: Manifest, rules: seq<Rule>, target: string, ruleProviders: map<string, RuleProvider>,
                          primary: Rule, c: Connection, declines: iset<string>)
    requires Guarded(rules, primary) && RuleMatches(ruleProviders, primary, c)
    ensures Decider(ruleProviders, rules, c, declines) <= Position(rules, primary) + 1 < |rules|
    ensures Decision(ruleProviders, rules, c, declines).Some?
  {
    var g := Position(rules, Guard(primary));
    assert Takes(ruleProviders, rules[g], c, declines);
    DeciderNoLater(ruleProviders, rules, c, declines, g);
    DeciderFirst(ruleProviders, rules, c, declines);
  }

  /** A guarded rule ahead of the AI rules keeps its traffic from all of them. */
  lemma GuardedAheadOfAi(m: Manifest, rules: seq<Rule>, target: string, ruleProviders: map<string, RuleProvider>,
                         primary: Rule, c: Connection, declines: iset<string>)
    requires Guarded(rules, primary) && RuleMatches(ruleProviders, primary, c)
    requires Position(rules, primary) < FirstAi(rules) && !IsAiRule(primary)
    ensures var i := Decider(ruleProviders, rules, c, declines); i < FirstAi(rules) && !IsAiRule(rules[i])
  {
    GuardedIsTerminal(m, rules, target, ruleProviders, primary, c, declines);
    var g := Position(rules, Guard(primary));
    assert !IsAiRule(rules[g]);
  }

  /** Each even position from 2 to 18 holds a process rule, and the odd one after it that rule's guard. */
  lemma ProcessBlock(m: Manifest, rules: seq<Rule>, target: string, k: nat) returns (e: Reviewed)
    requires Accepted(m, rules, target) && k < |PROCESSES|
    ensures e in PROCESSES && e in Reviews() && 2 * k + 3 < |rules|
    ensures rules[2 * k + 2] == RuleFor(e, target) && rules[2 * k + 3] == Guard(RuleFor(e, target))
  {
    EvenIsPosition(rules, target, k);
    e := PositionOwner(rules, target, PROCESSES, 2 * k + 2);
    ReviewedIsGuarded(m, rules, target, e);
  }

  lemma EvenIsPosition(rules: seq<Rule>, target: string, k: nat)
    requires ProcessesPlaced(rules, target) && k < |PROCESSES|
    ensures 2 * k + 2 in ProcessPositions(rules, target, PROCESSES)
  {
    assert Evens(|PROCESSES|)[k] == 2 * k + 2;
    assert 2 * k + 2 in multiset(Evens(|PROCESSES|));
  }

  lemma PositionIsSmall(rules: seq<Rule>, target: string, e: Reviewed)
    requires ProcessesPlaced(rules, target) && e in PROCESSES
    ensures Position(rules, RuleFor(e, target)) <= 2 * |PROCESSES|
  {
    PositionListed(rules, target, PROCESSES, e);
    var p := Position(rules, RuleFor(e, target));
    assert p in multiset(ProcessPositions(rules, target, PROCESSES));
    assert p in Evens(|PROCESSES|);
  }

  lemma {:induction false} PositionOwner(rules: seq<Rule>, target: string, es: seq<Reviewed>, p: nat) returns (e: Reviewed)
    requires forall x :: x in es ==> Once(rules, RuleFor(x, target))
    requires p in ProcessPositions(rules, target, es)
    ensures e in es && p == Position(rules, RuleFor(e, target))
  {
    var last := es[|es| - 1];
    if p == Position(rules, RuleFor(last, target)) {
      e := last;
    } else {
      e := PositionOwner(rules, target, es[..|es| - 1], p);
    }
  }

  lemma LeadingBlock(m: Manifest, rules: seq<Rule>, target: string, i: nat)
    requires Accepted(m, rules, target) && i < 2 * |PROCESSES| + 2
    ensures i < |rules| && rules[i].target in {target, "REJECT"}
  {
    if i < 2 {
      InboundHead(m, rules, target);
    } else {
      var k := HalfOf(i, |PROCESSES|);
      var e := ProcessBlock(m, rules, target, k);
      TargetInBlock(rules, e, target, k, i);
    }
  }

  lemma TargetInBlock(rules: seq<Rule>, e: Reviewed, target: string, k: nat, i: nat)
    requires 2 * k + 3 < |rules| && rules[2 * k + 2] == RuleFor(e, target) && rules[2 * k + 3] == Guard(RuleFor(e, target))
    requires i == 2 * k + 2 || i == 2 * k + 3
    ensures rules[i].target in {target, "REJECT"}
  {
  }

  lemma OnceAtZero(rules: seq<Rule>, r: Rule)
    requires rules != [] && rules[0] == r && Once(rules, r)
    ensures Position(rules, r) == 0
  {
  }

  /** Downloader processes and the download inbound always leave by the download target or are rejected. */
  lemma ProcessTrafficStaysDownload(m: Manifest, rules: seq<Rule>, target: string, ruleProviders: map<string, RuleProvider>,
                                    e: Reviewed, c: Connection, declines: iset<string>)
    requires Accepted(m, rules, target) && (e == INBOUND || e in PROCESSES)
    requires Classifier(e.kind, e.value) in c.traits
    ensures Decision(ruleProviders, rules, c, declines) in {Some(target), Some("REJECT")}
  {
    assert e in Reviews();
    ReviewedIsGuarded(m, rules, target, e);
    NotRuleSet(e);
    GuardedIsTerminal(m, rules, target, ruleProviders, RuleFor(e, target), c, declines);
    var i := Decider(ruleProviders, rules, c, declines);
    if e == INBOUND {
      OnceAtZero(rules, RuleFor(e, target));
    } else {
      PositionIsSmall(rules, target, e);
    }
    LeadingBlock(m, rules, target, i);
    DeciderFirst(ruleProviders, rules, c, declines);
  }

  lemma {:induction false} PositionListed(rules: seq<Rule>, target: string, es: seq<Reviewed>, e: Reviewed)
    requires (forall x :: x in es ==> Once(rules, RuleFor(x, target))) && e in es
    ensures Position(rules, RuleFor(e, target)) in ProcessPositions(rules, target, es)
  {
    if e != es[|es| - 1] { PositionListed(rules, target, es[..|es| - 1], e); }
  }

  lemma NotRuleSet(e: Reviewed)
    requires e in Reviews()
    ensures e.kind != "RULE-SET" && e.kind != "MATCH"
  {
    ReviewedHead(e);
    HeadDecides(e.kind, "RULE-SET");
    HeadDecides(e.kind, "MATCH");
  }

  lemma HeadDecides(a: string, b: string)
    requires a != "" && b != "" && a[0] != b[0]
    ensures a != b
  {
  }

  lemma ReviewedHead(e: Reviewed)
    requires e in Reviews()
    ensures e.kind != "" && e.kind[0] in {'P', 'D', 'I'}
  {
    assert e == INBOUND || e in PROCESSES || e in DOMAINS;
    if e in PROCESSES {
      ProcessHead(e);
    } else if e in DOMAINS {
      DomainHead(e);
    } else {
      assert INBOUND.kind[0] == 'I';
    }
  }

  lemma ProcessHead(e: Reviewed)
    requires e in PROCESSES
    ensures e.kind != "" && e.kind[0] == 'P'
  {
    forall i | 0 <= i < |PROCESSES| ensures PROCESSES[i].kind == "PROCESS-NAME" {}
  }

  lemma DomainHead(e: Reviewed)
    requires e in DOMAINS
    ensures e.kind != "" && e.kind[0] == 'D'
  {
  }

  /** No process, inbound or download-domain traffic is ever decided by an AI rule. */
  lemma ReviewedNeverAi(m: Manifest, rules: seq<Rule>, target: string, ruleProviders: map<string, RuleProvider>,
                        e: Reviewed, c: Connection, declines: iset<string>)
    requires Accepted(m, rules, target) && e in Reviews() && Classifier(e.kind, e.value) in c.traits
    ensures var i := Decider(ruleProviders, rules, c, declines); i < FirstAi(rules) && !IsAiRule(rules[i])
  {
    ReviewedIsGuarded(m, rules, target, e);
    NotRuleSet(e);
    if e !in DOMAINS { ProcessAheadOfAi(m, rules, target, e); }
    GuardedAheadOfAi(m, rules, target, ruleProviders, RuleFor(e, target), c, declines);
  }

  /** The process block lies ahead of every AI rule, since no rule in it is one. */
  lemma ProcessAheadOfAi(m: Manifest, rules: seq<Rule>, target: string, e: Reviewed)
    requires Accepted(m, rules, target) && (e == INBOUND || e in PROCESSES)
    ensures Position(rules, RuleFor(e, target)) < FirstAi(rules)
  {
    if e == INBOUND {
      OnceAtZero(rules, RuleFor(e, target));
      NotRuleSet(INBOUND);
    } else {
      PositionIsSmall(rules, target, e);
      var p := Position(rules, RuleFor(e, target));
      forall j | 0 <= j <= p ensures !IsAiRule(rules[j]) { BlockNotAi(m, rules, target, j); }
    }
  }

  lemma BlockNotAi(m: Manifest, rules: seq<Rule>, target: string, i: nat)
    requires Accepted(m, rules, target) && i < 2 * |PROCESSES| + 2
    ensures i < |rules| && !IsAiRule(rules[i])
  {
    if i < 2 { HeadNotAi(m, rules, target, i); } else { TailNotAi(m, rules, target, i); }
  }

  lemma HeadNotAi(m: Manifest, rules: seq<Rule>, target: string, i: nat)
    requires Accepted(m, rules, target) && i < 2
    ensures i < |rules| && !IsAiRule(rules[i])
  {
    InboundHead(m, rules, target);
    NotAiInPair(rules, INBOUND, target, 0, i);
  }

  lemma PairNotAi(m: Manifest, rules: seq<Rule>, target: string, k: nat, i: nat)
    requires Accepted(m, rules, target) && k < |PROCESSES| && (i == 2 * k + 2 || i == 2 * k + 3)
    ensures i < |rules| && !IsAiRule(rules[i])
  {
    var e := ProcessBlock(m, rules, target, k);
    NotAiInBlock(rules, e, target, k, i);
  }

  lemma NotAiInPair(rules: seq<Rule>, e: Reviewed, target: string, p: nat, i: nat)
    requires e in Reviews() && p + 1 < |rules| && rules[p] == RuleFor(e, target) && rules[p + 1] == Guard(RuleFor(e, target))
    requires i == p || i == p + 1
    ensures !IsAiRule(rules[i])
  {
    ReviewedNotAi(rules[i], e, target);
  }

  lemma NotAiInBlock(rules: seq<Rule>, e: Reviewed, target: string, k: nat, i: nat)
    requires e in Reviews() && 2 * k + 3 < |rules|
    requires rules[2 * k + 2] == RuleFor(e, target) && rules[2 * k + 3] == Guard(RuleFor(e, target))
    requires i == 2 * k + 2 || i == 2 * k + 3
    ensures !IsAiRule(rules[i])
  {
    NotAiInPair(rules, e, target, 2 * k + 2, i);
  }

  lemma TailNotAi(m: Manifest, rules: seq<Rule>, target: string, i: nat)
    requires Accepted(m, rules, target) && 2 <= i < 2 * |PROCESSES| + 2
    ensures i < |rules| && !IsAiRule(rules[i])
  {
    var k := HalfOf(i, |PROCESSES|);
    PairNotAi(m, rules, target, k, i);
  }

  lemma HalfOf(i: nat, n: nat) returns (k: nat)
    requires 2 <= i < 2 * n + 2
    ensures k < n && (i == 2 * k + 2 || i == 2 * k + 3)
  {
    k := (i - 2) / 2;
  }

  lemma ReviewedNotAi(r: Rule, e: Reviewed, target: string)
    requires e in Reviews() && (r == RuleFor(e, target) || r == Guard(RuleFor(e, target)))
    ensures !IsAiRule(r)
  {
    NotRuleSet(e);
  }

  lemma InboundHead(m: Manifest, rules: seq<Rule>, target: string)
    requires Accepted(m, rules, target)
    ensures |rules| > 1 && rules[0] == RuleFor(INBOUND, target) && rules[1] == Guard(RuleFor(INBOUND, target))
    ensures INBOUND in Reviews()
  {
    assert INBOUND in Reviews();
    ReviewedIsGuarded(m, rules, target, INBOUND);
    OnceAtZero(rules, RuleFor(INBOUND, target));
  }

  lemma DownloadListNotAi(target: string)
    ensures !IsAiRule(ListRule("download", target))
    ensures ListRule("download", target) == Primary("RULE-SET", "acl4ssr_download", target)
  {
    var v := "acl4ssr_" + "download";
    assert v == "acl4ssr_download";
    assert v[0] == 'a' && v[8] == 'd';
    assert "acl4ssr_ai"[8] == 'a' && "acl4ssr_openai"[8] == 'o' && "cr_openai_app"[0] == 'c';
    var prefix := "cr_ai_rules_";
    assert prefix[0] == 'c';
    assert !(prefix <= v);
  }

  /**
   ACL4SSR Download traffic is never decided by an AI rule, provided its source row declares the
   download scenario or the download target carries the connection. The audit checks the guard only in
   the first case, and without it the second is needed: see `DownloadListLeak`.
   */
  lemma DownloadListNeverAi(m: Manifest, rules: seq<Rule>, target: string, ruleProviders: map<string, RuleProvider>,
                            c: Connection, declines: iset<string>)
    requires Accepted(m, rules, target) && Hits(ruleProviders, "acl4ssr_download", c)
    requires SourceOf(m.sources, "download").value.scenario == "download" || !c.udp || target !in declines
    ensures var i := Decider(ruleProviders, rules, c, declines); i < FirstAi(rules) && !IsAiRule(rules[i])
  {
    var primary := ListRule("download", target);
    DownloadListNotAi(target);
    assert RuleMatches(ruleProviders, primary, c);
    if SourceOf(m.sources, "download").value.scenario == "download" {
      DownloadListIsGuarded(m, rules, target);
      GuardedAheadOfAi(m, rules, target, ruleProviders, primary, c, declines);
    } else {
      DeciderNoLater(ruleProviders, rules, c, declines, Position(rules, primary));
    }
  }
}
