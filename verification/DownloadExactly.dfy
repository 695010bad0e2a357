/** What the download audit accepts, position by position. */
module DownloadExactly {
  import opened Ordering
  import opened Results
  import opened Routing
  import opened DownloadAudit

  /** Position `i` holds this rule, and no other position does. */
  ghost predicate Alone(rules: seq<Rule>, i: nat, r: Rule) {
    i < |rules| && forall j :: 0 <= j < |rules| ==> (rules[j] == r <==> j == i)
  }

  predicate IsAi(r: Rule) {
    r.kind == "RULE-SET" && (r.value in {"acl4ssr_ai", "acl4ssr_openai", "cr_openai_app"} || "cr_ai_rules_" <= r.value)
  }

  ghost predicate FirstIs(rules: seq<Rule>, ai: nat) { ai < |rules| && IsAi(rules[ai]) && forall j :: 0 <= j < ai ==> !IsAi(rules[j]) }

  predicate ProcessValue(v: string) {
    v in {"com.android.vending", "aria2c", "aria2c.exe", "IDMan.exe", "fdm.exe", "qbittorrent.exe", "qbittorrent", "transmission-gtk", "Thunder.exe"}
  }

  function Process(v: string, target: string): Rule { Rule("PROCESS-NAME", v, target, []) }

  /** The nine process rules stand alone at the even positions 2 to 18, one at each. */
  ghost predicate ProcessesAt(rules: seq<Rule>, target: string) {
    && (forall v :: ProcessValue(v) ==> exists k: nat :: k < 9 && StandsAt(rules, target, v, k))
    && forall k: nat :: k < 9 ==> Manned(rules, target, k)
  }

  ghost predicate Manned(rules: seq<Rule>, target: string, k: nat) { exists v :: ProcessValue(v) && StandsAt(rules, target, v, k) }

  ghost predicate StandsAt(rules: seq<Rule>, target: string, v: string, k: nat) { Alone(rules, 2 + 2 * k, Process(v, target)) }

  /** The rule stands alone, right ahead of its guard, which does too. */
  ghost predicate Terminal(rules: seq<Rule>, r: Rule) {
    exists i: nat :: Alone(rules, i, r) && Alone(rules, i + 1, r.(target := "REJECT"))
  }

  ghost predicate Before(rules: seq<Rule>, r: Rule, ai: nat) { exists i: nat :: i < ai && Alone(rules, i, r) }

  /** The last row with an id is the one a dictionary holds. */
  ghost predicate IsRow(rows: seq<InlineRow>, id: string, row: InlineRow) {
    exists i :: 0 <= i < |rows| && rows[i] == row && row.id == id && forall j :: i < j < |rows| ==> rows[j].id != id
  }

  /** Every row with the download scenario is emitted as a terminal rule. */
  ghost predicate RowsTerminal(m: Manifest, rules: seq<Rule>, target: string) {
    && (forall row, last :: row in m.inlineRows && row.scenario == "download" && IsRow(m.inlineRows, row.id, last) ==>
          Terminal(rules, Rule(last.kind, last.value, target, [])))
    && forall row :: row in m.sources && row.scenario == "download" ==> Terminal(rules, Rule("RULE-SET", "acl4ssr_" + row.id, target, []))
  }

  ghost predicate Placed(m: Manifest, rules: seq<Rule>, target: string, ai: nat, media: nat, generic: nat) {
    && Alone(rules, 0, Rule("IN-NAME", "download-in", target, [])) && ProcessesAt(rules, target) && FirstIs(rules, ai)
    && Before(rules, Rule("DOMAIN-SUFFIX", "gvt1.com", target, []), ai) && Before(rules, Rule("DOMAIN-SUFFIX", "gvt2.com", target, []), ai)
    && Before(rules, Rule("DOMAIN", "release-assets.githubusercontent.com", target, []), ai)
    && Before(rules, Rule("RULE-SET", "acl4ssr_download", target, []), ai)
    && ai < media < generic && Alone(rules, media, Rule("RULE-SET", "acl4ssr_proxy_media", "流媒体", []))
    && Alone(rules, generic, Rule("RULE-SET", "acl4ssr_proxy_lite", "网页通用自动", []))
    && RowsTerminal(m, rules, target)
  }

  // ----- one rule -----

  lemma {:induction false} CountedOnce(rules: seq<Rule>, i: nat, r: Rule)
    requires Alone(rules, i, r)
    ensures multiset(rules)[r] == 1
  {
    assert rules == rules[..i] + ([rules[i]] + rules[i + 1..]);
    assert r !in rules[..i] && r !in rules[i + 1..];
    assert multiset(rules) == multiset(rules[..i]) + multiset{r} + multiset(rules[i + 1..]);
  }

  lemma TwoCounted(rules: seq<Rule>, i: nat, j: nat, r: Rule)
    ensures i < j < |rules| && rules[i] == r && rules[j] == r ==> multiset(rules)[r] >= 2
  {
    if i < j < |rules| && rules[i] == r && rules[j] == r {
      assert rules == rules[..i] + ([rules[i]] + rules[i + 1..j] + [rules[j]] + rules[j + 1..]);
      assert multiset(rules) == multiset(rules[..i]) + multiset{r} + multiset(rules[i + 1..j]) + multiset{r} + multiset(rules[j + 1..]);
    }
  }

  lemma OnceIsAlone(rules: seq<Rule>, r: Rule)
    requires Once(rules, r)
    ensures Alone(rules, Position(rules, r), r)
  {
    var p := Position(rules, r);
    forall j: nat | j < |rules| ensures rules[j] == r <==> j == p {
      TwoCounted(rules, j, p, r);
      TwoCounted(rules, p, j, r);
    }
  }

  lemma AloneExactly(rules: seq<Rule>, i: nat, r: Rule)
    ensures Alone(rules, i, r) <==> Once(rules, r) && Position(rules, r) == i
  {
    if Alone(rules, i, r) { CountedOnce(rules, i, r); }
    if Once(rules, r) { OnceIsAlone(rules, r); }
  }

  lemma TerminalExactly(rules: seq<Rule>, r: Rule)
    ensures Terminal(rules, r) <==> Guarded(rules, r)
  {
    if i: nat :| Alone(rules, i, r) && Alone(rules, i + 1, r.(target := "REJECT")) {
      AloneExactly(rules, i, r);
      AloneExactly(rules, i + 1, Guard(r));
    }
    if Guarded(rules, r) {
      AloneExactly(rules, Position(rules, r), r);
      AloneExactly(rules, Position(rules, r) + 1, Guard(r));
    }
  }

  lemma BeforeExactly(rules: seq<Rule>, r: Rule)
    ensures Before(rules, r, FirstAi(rules)) <==> Once(rules, r) && Position(rules, r) < FirstAi(rules)
  {
    if i: nat :| i < FirstAi(rules) && Alone(rules, i, r) { AloneExactly(rules, i, r); }
    if Once(rules, r) { AloneExactly(rules, Position(rules, r), r); }
  }

  lemma FirstExactly(rules: seq<Rule>, ai: nat)
    ensures FirstIs(rules, ai) <==> FirstAi(rules) < |rules| && ai == FirstAi(rules)
  {
    forall r ensures IsAi(r) <==> IsAiRule(r) {}
  }

  // ----- processes -----

  lemma ProcessRows(e: Reviewed)
    ensures e in PROCESSES ==> e.kind == "PROCESS-NAME" && ProcessValue(e.value)
  {
    forall i | 0 <= i < |PROCESSES| ensures PROCESSES[i].kind == "PROCESS-NAME" && ProcessValue(PROCESSES[i].value) {}
  }

  lemma ProcessRow(v: string) returns (e: Reviewed)
    requires ProcessValue(v)
    ensures e in PROCESSES && e.kind == "PROCESS-NAME" && e.value == v
  {
    var es := PROCESSES;
    assert es[0].value == "com.android.vending" && es[1].value == "aria2c" && es[2].value == "aria2c.exe" && es[3].value == "IDMan.exe" && es[4].value == "fdm.exe";
    assert es[5].value == "qbittorrent.exe" && es[6].value == "qbittorrent" && es[7].value == "transmission-gtk" && es[8].value == "Thunder.exe";
    var i :| 0 <= i < 9 && es[i].value == v;
    e := es[i];
    ProcessRows(e);
  }

  lemma ProcessesPlacedAt(rules: seq<Rule>, target: string)
    requires ProcessesPlaced(rules, target)
    ensures ProcessesAt(rules, target)
  {
    forall v | ProcessValue(v) ensures exists k: nat :: k < 9 && StandsAt(rules, target, v, k) {
      var e := ProcessRow(v);
      assert RuleFor(e, target) == Process(v, target);
      PositionListed(rules, target, PROCESSES, e);
      var p := Position(rules, RuleFor(e, target));
      assert p in multiset(ProcessPositions(rules, target, PROCESSES));
      assert p in Evens(9);
      var k: nat :| k < 9 && Evens(9)[k] == p;
      AloneExactly(rules, p, RuleFor(e, target));
      assert StandsAt(rules, target, v, k);
    }
    forall k: nat | k < 9 ensures Manned(rules, target, k) {
      EvenIsPosition(rules, target, k);
      var e := PositionOwner(rules, target, PROCESSES, 2 * k + 2);
      ProcessRows(e);
      AloneExactly(rules, 2 * k + 2, RuleFor(e, target));
      assert ProcessValue(e.value) && StandsAt(rules, target, e.value, k);
    }
  }

  lemma {:induction false} SameElements(ps: seq<nat>, qs: seq<nat>)
    requires |ps| == |qs| && NoDuplicates(qs) && forall x :: x in qs ==> x in ps
    ensures multiset(ps) == multiset(qs)
    decreases |qs|
  {
    if qs != [] {
      var n := |qs| - 1;
      var x := qs[n];
      assert x in qs;
      var i :| 0 <= i < |ps| && ps[i] == x;
      var rest := ps[..i] + ps[i + 1..];
      forall y | y in qs[..n] ensures y in rest {
        assert y in qs && y != x;
        assert ps == ps[..i] + ([ps[i]] + ps[i + 1..]);
      }
      SameElements(rest, qs[..n]);
      RemoveAt(ps, i);
      assert qs == qs[..n] + [x];
    }
  }

  lemma {:induction false} PositionsCount(rules: seq<Rule>, target: string, es: seq<Reviewed>)
    requires AllOnce(rules, target, es)
    ensures |ProcessPositions(rules, target, es)| == |es|
  {
    if es != [] { PositionsCount(rules, target, es[..|es| - 1]); }
  }

  lemma ProcessStandsOnce(rules: seq<Rule>, target: string, e: Reviewed)
    requires ProcessesAt(rules, target) && e in PROCESSES
    ensures Once(rules, RuleFor(e, target))
  {
    ProcessRows(e);
    assert ProcessValue(e.value);
    var k: nat :| k < 9 && StandsAt(rules, target, e.value, k);
    AloneExactly(rules, 2 + 2 * k, RuleFor(e, target));
  }

  lemma EvenHasProcess(rules: seq<Rule>, target: string, k: nat)
    requires ProcessesAt(rules, target) && AllOnce(rules, target, PROCESSES) && k < 9
    ensures 2 + 2 * k in ProcessPositions(rules, target, PROCESSES)
  {
    assert Manned(rules, target, k);
    var v :| ProcessValue(v) && StandsAt(rules, target, v, k);
    var e := ProcessRow(v);
    AloneExactly(rules, 2 + 2 * k, RuleFor(e, target));
    PositionListed(rules, target, PROCESSES, e);
  }

  lemma ProcessesAtPlaced(rules: seq<Rule>, target: string)
    requires ProcessesAt(rules, target)
    ensures ProcessesPlaced(rules, target)
  {
    forall e | e in PROCESSES ensures Once(rules, RuleFor(e, target)) { ProcessStandsOnce(rules, target, e); }
    var ps, es := ProcessPositions(rules, target, PROCESSES), Evens(9);
    PositionsCount(rules, target, PROCESSES);
    forall x | x in es ensures x in ps {
      var k: nat :| k < 9 && es[k] == x;
      EvenHasProcess(rules, target, k);
    }
    SameElements(ps, es);
  }

  // ----- rows -----

  lemma LastIsRow(rows: seq<InlineRow>, id: string, row: InlineRow)
    requires rows != [] && rows[|rows| - 1] == row && row.id == id
    ensures IsRow(rows, id, row)
  {
    var n: nat := |rows| - 1;
    assert rows[n] == row;
  }

  lemma RowAhead(rows: seq<InlineRow>, last: InlineRow, id: string, row: InlineRow)
    requires last.id != id
    ensures IsRow(rows + [last], id, row) <==> IsRow(rows, id, row)
  {
    var all := rows + [last];
    if i :| 0 <= i < |rows| && rows[i] == row && row.id == id && forall j :: i < j < |rows| ==> rows[j].id != id {
      assert all[i] == row && forall j :: i < j < |all| ==> all[j].id != id;
    }
    if i :| 0 <= i < |all| && all[i] == row && row.id == id && forall j :: i < j < |all| ==> all[j].id != id {
      assert rows[i] == row;
      forall j | i < j < |rows| ensures rows[j].id != id { assert all[j] == rows[j]; }
    }
  }

  lemma LastRow(rows: seq<InlineRow>, last: InlineRow, row: InlineRow)
    ensures IsRow(rows + [last], last.id, row) <==> row == last
  {
    var all := rows + [last];
    assert all[|rows|] == last;
    if row == last { LastIsRow(all, last.id, row); }
  }

  lemma {:induction false} RowExactly(rows: seq<InlineRow>, id: string, row: InlineRow)
    ensures InlineOf(rows, id) == Some(row) <==> IsRow(rows, id, row)
  {
    if rows != [] {
      var n := |rows| - 1;
      assert rows == rows[..n] + [rows[n]];
      RowExactly(rows[..n], id, row);
      if rows[n].id != id { RowAhead(rows[..n], rows[n], id, row); } else { LastRow(rows[..n], rows[n], row); }
    }
  }

  lemma {:induction false} HasRow(rows: seq<InlineRow>, row: InlineRow)
    requires row in rows
    ensures InlineOf(rows, row.id).Some?
  {
    var n := |rows| - 1;
    assert rows == rows[..n] + [rows[n]];
    if rows[n].id != row.id { HasRow(rows[..n], row); }
  }

  lemma {:induction false} InlineListed(m: Manifest, rows: seq<InlineRow>, target: string, p: Rule)
    requires forall row :: row in rows ==> row in m.inlineRows
    ensures p in InlinePrimaries(m, rows, target) <==> exists row :: row in rows && row.scenario == "download" && p == InlinePrimary(m, row.id, target)
  {
    if rows != [] {
      InlineListed(m, rows[1..], target, p);
      assert rows == [rows[0]] + rows[1..];
    }
  }

  lemma {:induction false} SourcesListed(rows: seq<SourceRow>, target: string, p: Rule)
    ensures p in ListPrimaries(rows, target) <==> exists row :: row in rows && row.scenario == "download" && p == ListRule(row.id, target)
  {
    if rows != [] {
      SourcesListed(rows[1..], target, p);
      assert rows == [rows[0]] + rows[1..];
    }
  }

  lemma RowsExactly(m: Manifest, rules: seq<Rule>, target: string)
    ensures RowsTerminal(m, rules, target) <==> AllGuarded(rules, Primaries(m, target))
  {
    forall p ensures p in Primaries(m, target)
                     <==> (exists row :: row in m.inlineRows && row.scenario == "download" && p == InlinePrimary(m, row.id, target))
                          || exists row :: row in m.sources && row.scenario == "download" && p == ListRule(row.id, target)
    {
      InlineListed(m, m.inlineRows, target, p);
      SourcesListed(m.sources, target, p);
    }
    forall r ensures Terminal(rules, r) <==> Guarded(rules, r) { TerminalExactly(rules, r); }
    forall row, last | row in m.inlineRows ensures IsRow(m.inlineRows, row.id, last) <==> InlineOf(m.inlineRows, row.id) == Some(last) {
      RowExactly(m.inlineRows, row.id, last);
    }
    RowsBoth(m, rules, target);
  }

  lemma RowsBoth(m: Manifest, rules: seq<Rule>, target: string)
    requires forall p :: p in Primaries(m, target)
                         <==> (exists row :: row in m.inlineRows && row.scenario == "download" && p == InlinePrimary(m, row.id, target))
                              || exists row :: row in m.sources && row.scenario == "download" && p == ListRule(row.id, target)
    requires forall r :: Terminal(rules, r) <==> Guarded(rules, r)
    requires forall row, last :: row in m.inlineRows ==> (IsRow(m.inlineRows, row.id, last) <==> InlineOf(m.inlineRows, row.id) == Some(last))
    ensures RowsTerminal(m, rules, target) <==> AllGuarded(rules, Primaries(m, target))
  {
    if AllGuarded(rules, Primaries(m, target)) {
      forall row, last | row in m.inlineRows && row.scenario == "download" && IsRow(m.inlineRows, row.id, last)
        ensures Terminal(rules, Rule(last.kind, last.value, target, []))
      {
        var p := InlinePrimary(m, row.id, target);
        assert p in Primaries(m, target) && Guarded(rules, p);
        assert InlineOf(m.inlineRows, row.id) == Some(last);
        assert p == Rule(last.kind, last.value, target, []);
      }
      forall row | row in m.sources && row.scenario == "download" ensures Terminal(rules, Rule("RULE-SET", "acl4ssr_" + row.id, target, [])) {
        assert ListRule(row.id, target) in Primaries(m, target);
      }
    }
    if RowsTerminal(m, rules, target) {
      forall p | p in Primaries(m, target) ensures Guarded(rules, p) {
        if row :| row in m.inlineRows && row.scenario == "download" && p == InlinePrimary(m, row.id, target) {
          HasRow(m.inlineRows, row);
          assert IsRow(m.inlineRows, row.id, InlineOf(m.inlineRows, row.id).value);
        }
      }
    }
  }

  // ----- the audit -----

  lemma DomainsExactly(rules: seq<Rule>, target: string)
    ensures DomainsAhead(rules, target, DOMAINS)
            <==> && Before(rules, Rule("DOMAIN-SUFFIX", "gvt1.com", target, []), FirstAi(rules))
                 && Before(rules, Rule("DOMAIN-SUFFIX", "gvt2.com", target, []), FirstAi(rules))
                 && Before(rules, Rule("DOMAIN", "release-assets.githubusercontent.com", target, []), FirstAi(rules))
  {
    var a, b, c := DOMAINS[0], DOMAINS[1], DOMAINS[2];
    BeforeExactly(rules, RuleFor(a, target));
    BeforeExactly(rules, RuleFor(b, target));
    BeforeExactly(rules, RuleFor(c, target));
    assert a in DOMAINS && b in DOMAINS && c in DOMAINS && forall e :: e in DOMAINS ==> e == a || e == b || e == c;
  }

  lemma ListNames()
    ensures "acl4ssr_" + "download" == "acl4ssr_download" && "acl4ssr_" + "proxy_media" == "acl4ssr_proxy_media" && "acl4ssr_" + "proxy_lite" == "acl4ssr_proxy_lite"
  {
  }

  lemma InboundExactly(rules: seq<Rule>, target: string)
    ensures InboundFirst(rules, target) <==> Alone(rules, 0, Rule("IN-NAME", "download-in", target, []))
  {
    var r := RuleFor(INBOUND, target);
    assert r == Rule("IN-NAME", "download-in", target, []);
    if InboundFirst(rules, target) {
      OnceAtZero(rules, r);
      AloneExactly(rules, 0, r);
    }
    if Alone(rules, 0, r) { AloneExactly(rules, 0, r); }
  }

  lemma GenericExactly(rules: seq<Rule>, media: nat, generic: nat)
    requires FirstAi(rules) < |rules|
    ensures GenericBehind(rules) && media == Position(rules, ListRule("proxy_media", MEDIA)) && generic == Position(rules, ListRule("proxy_lite", WEB_GENERAL_AUTO))
            <==> && FirstAi(rules) < media < generic && Alone(rules, media, Rule("RULE-SET", "acl4ssr_proxy_media", "流媒体", []))
                 && Alone(rules, generic, Rule("RULE-SET", "acl4ssr_proxy_lite", "网页通用自动", []))
  {
    ListNames();
    AloneExactly(rules, media, ListRule("proxy_media", MEDIA));
    AloneExactly(rules, generic, ListRule("proxy_lite", WEB_GENERAL_AUTO));
  }

  /** What an accepted rule list looks like. */
  lemma AcceptedExactly(m: Manifest, rules: seq<Rule>, target: string)
    ensures Accepted(m, rules, target) <==> Declared(m, target) && exists ai: nat, media: nat, generic: nat :: Placed(m, rules, target, ai, media, generic)
  {
    ListNames();
    InboundExactly(rules, target);
    DomainsExactly(rules, target);
    BeforeExactly(rules, ListRule("download", target));
    RowsExactly(m, rules, target);
    if Accepted(m, rules, target) {
      ProcessesPlacedAt(rules, target);
      var media, generic := Position(rules, ListRule("proxy_media", MEDIA)), Position(rules, ListRule("proxy_lite", WEB_GENERAL_AUTO));
      FirstExactly(rules, FirstAi(rules));
      GenericExactly(rules, media, generic);
      assert Placed(m, rules, target, FirstAi(rules), media, generic);
    }
    if ai: nat, media: nat, generic: nat :| Placed(m, rules, target, ai, media, generic) {
      FirstExactly(rules, ai);
      GenericExactly(rules, media, generic);
      ProcessesAtPlaced(rules, target);
    }
  }
}
