/** What hardening leaves, field by field: the cloned providers, the groups, the counts, and what the audit demands. */
module ClientPathClones {
  import opened Results
  import opened Routing
  import opened Sifting
  import opened ClientPath
  import opened ClientPathLeaves

  // ----- the cloned providers -----

  /** A copy of `source` under the runtime name: the same settings. */
  ghost predicate IsRenamed(clone: Proxy, source: Proxy, m: string, lib: Library) {
    clone.name == source.name + " [OAI:" + lib.proxy(m, source.name) + "]" && clone.settings == source.settings
  }

  /** One copy for each selected proxy, in their order. */
  ghost predicate CopiesOf(clones: seq<Proxy>, payload: seq<Proxy>, m: string, filter: string, lib: Library) {
    exists picked :: && Sifted(payload, (p: Proxy) => Matches(filter, p.name, lib), picked) && |clones| == |picked|
                     && forall i :: 0 <= i < |clones| ==> IsRenamed(clones[i], picked[i], m, lib)
  }

  ghost predicate ChecksHealth(test: map<string, string>) {
    && "url" in test && test["url"] == "https://android.chat.openai.com/" && "interval" in test && test["interval"] == "120"
    && "timeout" in test && test["timeout"] == "5000" && "lazy" in test && test["lazy"] == "false"
    && "expected-status" in test && test["expected-status"] == "200-399/400-499"
  }

  /** The runtime provider of an anchor: inline, checked by the client, with copies of the selected proxies and the rest of its source. */
  ghost predicate Cloned(before: map<string, Provider>, after: map<string, Provider>, anchor: Group, lib: Library)
    requires |anchor.uses| == 1 && anchor.filter.Some? && anchor.uses[0] in before && before[anchor.uses[0]].payload.Some?
  {
    var name, source := "cr_openai_runtime_" + lib.provider(anchor.name), before[anchor.uses[0]];
    && name in after && after[name].kind == "inline" && ChecksHealth(after[name].healthCheck)
    && after[name].healthCheck.Keys == {"enable", "url", "interval", "timeout", "lazy", "expected-status"} && after[name].healthCheck["enable"] == "true"
    && after[name].rest == source.rest && after[name].payload.Some? && after[name].payload.value != []
    && CopiesOf(after[name].payload.value, source.payload.value, anchor.name, anchor.filter.value, lib)
  }

  lemma RenamedCopies(payload: seq<Proxy>, m: string, filter: string, lib: Library)
    ensures CopiesOf(Renamed(Selected(payload, filter, lib), m, lib), payload, m, filter, lib)
  {
    SelectedInOrder(payload, filter, lib);
    var picked := Selected(payload, filter, lib);
    var clones := Renamed(picked, m, lib);
    forall i | 0 <= i < |clones| ensures IsRenamed(clones[i], picked[i], m, lib) {
      assert MARK == " [OAI:";
    }
  }

  /** Whatever anchor of the target: its runtime provider is such a copy, and every provider there was is there unchanged. */
  lemma ClonesExactly(before: map<string, Provider>, groups: seq<Group>, after: map<string, Provider>, final: seq<Group>,
                      references: seq<string>, lib: Library, m: string)
    requires HardenedFrom(before, groups, after, final, references, lib) && SourcesDeclared(before, groups, references) && m in references
    ensures var a := Find(groups, m).value;
            && Find(groups, m).Some? && |a.uses| == 1 && a.filter.Some? && a.uses[0] in before && before[a.uses[0]].payload.Some?
            && Cloned(before, after, a, lib)
    ensures forall p :: p in before ==> p in after && after[p] == before[p]
    ensures forall p :: p in after && p !in before ==> exists x :: x in references && p == "cr_openai_runtime_" + lib.provider(x)
  {
    assert ClonedFrom(before, after, groups, m, lib);
    var a := Find(groups, m).value;
    assert a.uses[0] in a.uses;
    assert RuntimeProvider(before[a.uses[0]], m, a.filter.value, lib) == Some(after[RuntimeProviderName(m, lib)]);
    SourceCloned(before, after, a, lib);
    RuntimeKeys(references, lib);
  }

  lemma SourceCloned(before: map<string, Provider>, after: map<string, Provider>, a: Group, lib: Library)
    requires |a.uses| == 1 && a.filter.Some? && a.uses[0] in before && RuntimeProviderName(a.name, lib) in after
    requires RuntimeProvider(before[a.uses[0]], a.name, a.filter.value, lib) == Some(after[RuntimeProviderName(a.name, lib)])
    ensures before[a.uses[0]].payload.Some? && Cloned(before, after, a, lib)
  {
    RenamedCopies(before[a.uses[0]].payload.value, a.name, a.filter.value, lib);
    ChecksProvider();
  }

  lemma ChecksProvider()
    ensures ProviderHealth().Keys == {"enable", "url", "interval", "timeout", "lazy", "expected-status"}
    ensures ChecksHealth(ProviderHealth()) && ProviderHealth()["enable"] == "true"
  {
  }

  lemma RuntimeKeys(references: seq<string>, lib: Library)
    ensures forall p :: p in RuntimeNames(references, lib) ==> exists x :: x in references && p == "cr_openai_runtime_" + lib.provider(x)
  {
  }

  // ----- when hardening goes through -----

  /** An OpenAI anchor over one provider some node of which its filter takes, with a runtime name that is new. */
  ghost predicate CanHarden(providers: map<string, Provider>, groups: seq<Group>, m: string, lib: Library) {
    && "__CR_AI_OPENAI_" <= m && "cr_openai_runtime_" + lib.provider(m) !in providers && Find(groups, m).Some?
    && var a := Find(groups, m).value;
    && a.hidden && |a.uses| == 1 && a.filter.Some? && a.uses[0] in providers && providers[a.uses[0]].payload.Some?
    && Compiles(a.filter.value, lib) && exists p :: p in providers[a.uses[0]].payload.value && Matches(a.filter.value, p.name, lib)
  }

  ghost predicate Apart(names: seq<string>, lib: Library) {
    forall i, j :: 0 <= i < j < |names| ==> lib.provider(names[i]) != lib.provider(names[j])
  }

  lemma {:induction false} HardensExactly(providers: map<string, Provider>, groups: seq<Group>, names: seq<string>, lib: Library)
    ensures Hardens(providers, groups, names, lib) <==> (forall m :: m in names ==> CanHarden(providers, groups, m, lib)) && Apart(names, lib)
  {
    if names != [] {
      var k := |names| - 1;
      var init, last := names[..k], names[k];
      assert names == init + [last];
      HardensExactly(providers, groups, init, lib);
      HardenedOne(providers, groups, last, lib);
      ApartNext(init, last, lib);
    }
  }

  lemma HardenedOne(providers: map<string, Provider>, groups: seq<Group>, m: string, lib: Library)
    ensures RuntimeFor(providers, groups, m, lib).Some? <==> CanHarden(providers, groups, m, lib)
  {
    var a := Find(groups, m);
    if a.Some? && |a.value.uses| == 1 && a.value.filter.Some? && a.value.uses[0] in providers && providers[a.value.uses[0]].payload.Some? {
      var picked := Selected(providers[a.value.uses[0]].payload.value, a.value.filter.value, lib);
      if picked != [] { assert picked[0] in picked; }
    }
  }

  lemma ApartNext(init: seq<string>, last: string, lib: Library)
    ensures Apart(init + [last], lib) <==> Apart(init, lib) && RuntimeProviderName(last, lib) !in RuntimeNames(init, lib)
  {
    if Apart(init + [last], lib) {
      forall i, j | 0 <= i < j < |init| ensures lib.provider(init[i]) != lib.provider(init[j]) {
        assert (init + [last])[i] == init[i] && (init + [last])[j] == init[j];
      }
      forall m | m in init ensures RuntimeProviderName(m, lib) != RuntimeProviderName(last, lib) {
        var i :| 0 <= i < |init| && init[i] == m;
        assert (init + [last])[i] == m && (init + [last])[|init|] == last;
        SameEnd(RUNTIME_PREFIX, lib.provider(m), lib.provider(last));
      }
    }
    if Apart(init, lib) && RuntimeProviderName(last, lib) !in RuntimeNames(init, lib) {
      var all := init + [last];
      forall i, j | 0 <= i < j < |all| ensures lib.provider(all[i]) != lib.provider(all[j]) {
        assert init[i] in init;
        assert RuntimeProviderName(init[i], lib) in RuntimeNames(init, lib);
      }
    }
  }

  lemma SameEnd(a: string, x: string, y: string)
    requires x != y
    ensures a + x != a + y
  {
    assert (a + x)[|a|..] == x && (a + y)[|a|..] == y;
  }

  // ----- the groups -----

  /** The hardened target, a hardened anchor, or what was there. */
  ghost predicate HardenedGroup(before: Group, after: Group, references: seq<string>, lib: Library) {
    if before.name == "__CR_AI_SERVICE_OPENAI" then
      && after.name == before.name && after.kind == "fallback" && after.hidden && after.uses == [] && after.proxies == references
      && after.filter.None? && after.test.Keys == {"url", "interval", "timeout", "lazy", "expected-status", "max-failed-times"}
      && ChecksHealth(after.test) && after.test["max-failed-times"] == "2"
    else if before.name in references then
      && after.name == before.name && after.kind == "fallback" && after.hidden && after.proxies == [] && after.filter.None? && after.test == map[]
      && after.uses == ["cr_openai_runtime_" + lib.provider(before.name)]
    else after == before
  }

  /** Hardening goes through the groups one by one and leaves them in place. */
  lemma GroupsExactly(before: map<string, Provider>, groups: seq<Group>, after: map<string, Provider>, final: seq<Group>,
                      references: seq<string>, lib: Library)
    requires HardenedFrom(before, groups, after, final, references, lib)
    ensures |final| == |groups| && forall i :: 0 <= i < |groups| ==> HardenedGroup(groups[i], final[i], references, lib)
  {
    forall i | 0 <= i < |groups| ensures HardenedGroup(groups[i], final[i], references, lib) {
      OneHardened(groups[i], final[i], references, lib);
    }
  }

  lemma OneHardened(g: Group, h: Group, references: seq<string>, lib: Library)
    requires h == if g.name == TARGET then HardenedTarget(references) else if g.name in references then AnchorGroup(g.name, lib) else g
    ensures HardenedGroup(g, h, references, lib)
  {
    assert TARGET == "__CR_AI_SERVICE_OPENAI";
  }

  // ----- the audit -----

  function SizeOf(providers: map<string, Provider>, groups: seq<Group>, m: string): nat {
    var a := Find(groups, m);
    if a.None? || |a.value.uses| != 1 || a.value.uses[0] !in providers || providers[a.value.uses[0]].payload.None? then 0
    else |providers[a.value.uses[0]].payload.value|
  }

  function SizesOf(providers: map<string, Provider>, groups: seq<Group>, names: seq<string>): seq<nat> {
    seq(|names|, i requires 0 <= i < |names| => SizeOf(providers, groups, names[i]))
  }

  /** A hidden anchor over one inline provider whose nodes all carry the mark and which the client checks. */
  ghost predicate Isolated(providers: map<string, Provider>, groups: seq<Group>, m: string) {
    && "__CR_AI_OPENAI_" <= m && Find(groups, m).Some?
    && var a := Find(groups, m).value;
    && a.hidden && a.kind == "fallback" && |a.uses| == 1 && "cr_openai_runtime_" <= a.uses[0] && a.uses[0] in providers
    && var p := providers[a.uses[0]];
    && p.kind == "inline" && p.payload.Some? && p.payload.value != []
    && p.healthCheck.Keys == {"enable", "url", "interval", "timeout", "lazy", "expected-status"} && p.healthCheck["enable"] == "true"
    && ChecksHealth(p.healthCheck)
    && forall x :: x in p.payload.value ==> exists i, j :: 0 <= i <= j <= |x.name| && x.name[i..j] == " [OAI:"
  }

  lemma FrontIsPrefix(name: string, i: nat, j: nat)
    requires i <= j <= |name| && name[i..j] == " [OAI:"
    ensures i == 0 ==> MARK <= name
  {
  }

  lemma {:induction false} MarkedExactly(name: string)
    ensures Marked(name) <==> exists i, j :: 0 <= i <= j <= |name| && name[i..j] == " [OAI:"
  {
    if MARK <= name {
      assert name[0..6] == " [OAI:";
    } else if name != "" {
      MarkedExactly(name[1..]);
      if i, j :| 0 <= i <= j <= |name| && name[i..j] == " [OAI:" {
        FrontIsPrefix(name, i, j);
        assert name[1..][i - 1..j - 1] == name[i..j];
      }
      if i, j :| 0 <= i <= j <= |name[1..]| && name[1..][i..j] == " [OAI:" { assert name[i + 1..j + 1] == " [OAI:"; }
    }
  }

  lemma HealthExactly(test: map<string, string>)
    ensures test == ProviderHealth() <==> test.Keys == {"enable", "url", "interval", "timeout", "lazy", "expected-status"} && test["enable"] == "true" && ChecksHealth(test)
  {
    var health := ProviderHealth();
    assert health.Keys == {"enable", "url", "interval", "timeout", "lazy", "expected-status"};
    if test.Keys == health.Keys && test["enable"] == "true" && ChecksHealth(test) {
      forall k | k in test ensures test[k] == health[k] {}
    }
  }

  lemma IsolatedExactly(providers: map<string, Provider>, groups: seq<Group>, m: string)
    ensures AnchorPasses(providers, groups, m) <==> Isolated(providers, groups, m)
  {
    var a := Find(groups, m);
    if a.Some? && |a.value.uses| == 1 && a.value.uses[0] in providers && providers[a.value.uses[0]].payload.Some? {
      HealthExactly(providers[a.value.uses[0]].healthCheck);
      forall x | x in providers[a.value.uses[0]].payload.value
        ensures Marked(x.name) <==> exists i, j :: 0 <= i <= j <= |x.name| && x.name[i..j] == " [OAI:"
      {
        MarkedExactly(x.name);
      }
    }
  }

  /** The fields the audit looks for in the target. */
  ghost predicate TargetChecks(test: map<string, string>) {
    ChecksHealth(test) && "max-failed-times" in test && test["max-failed-times"] == "2"
  }

  lemma FieldsExactly(test: map<string, string>)
    ensures TargetChecks(test) <==> forall k :: k in TargetFields() ==> k in test && test[k] == TargetFields()[k]
  {
    var fields := TargetFields();
    assert fields.Keys == {"url", "interval", "timeout", "lazy", "expected-status", "max-failed-times"};
    if forall k :: k in fields ==> k in test && test[k] == fields[k] {
      forall k | k in fields ensures k in test && test[k] == fields[k] {}
      assert "url" in fields && "interval" in fields && "timeout" in fields && "lazy" in fields && "expected-status" in fields && "max-failed-times" in fields;
    }
  }

  /** The target is a checked fallback over isolated anchors. */
  ghost predicate WellPathed(providers: map<string, Provider>, groups: seq<Group>, t: Group) {
    t.kind == "fallback" && t.proxies != [] && TargetChecks(t.test) && forall m :: m in t.proxies ==> Isolated(providers, groups, m)
  }

  /** When the audit accepts, and with which verdict. */
  lemma AuditExactly(providers: map<string, Provider>, groups: seq<Group>)
    ensures var r, t := AuditClientPath(providers, groups), Find(groups, "__CR_AI_SERVICE_OPENAI");
            && (r.Ok? <==> UniqueNames(groups) && (t.None? || t.value.proxies == ["REJECT"] || WellPathed(providers, groups, t.value)))
            && (r.Ok? ==> r.value.status == if t.None? then PreQualification else if t.value.proxies == ["REJECT"] then FailClosed else Passed)
  {
    var t := Find(groups, TARGET);
    assert TARGET == "__CR_AI_SERVICE_OPENAI";
    if t.Some? {
      FieldsExactly(t.value.test);
      forall m ensures AnchorPasses(providers, groups, m) <==> Isolated(providers, groups, m) { IsolatedExactly(providers, groups, m); }
    }
  }

  // ----- the counts -----

  lemma {:induction false} NodesCounted(providers: map<string, Provider>, groups: seq<Group>, names: seq<string>)
    requires forall m :: m in names ==> Isolated(providers, groups, m)
    ensures NodesOf(providers, groups, names) == |Cells(SizesOf(providers, groups, names))|
  {
    var sizes := SizesOf(providers, groups, names);
    if names == [] {
      CellsEmpty();
    } else {
      var n := |names| - 1;
      NodesCounted(providers, groups, names[..n]);
      assert sizes == SizesOf(providers, groups, names[..n]) + [SizeOf(providers, groups, names[n])];
      CellsSnoc(SizesOf(providers, groups, names[..n]), SizeOf(providers, groups, names[n]));
      assert Isolated(providers, groups, names[n]);
    }
  }

  ghost predicate UsedBy(groups: seq<Group>, names: seq<string>, p: string) {
    exists m :: m in names && Find(groups, m).Some? && Find(groups, m).value.uses == [p]
  }

  /** The counts of an audited path: its anchors, the providers they use, and the nodes they offer, each anchor's counted. */
  lemma CountsExactly(providers: map<string, Provider>, groups: seq<Group>, used: set<string>)
    requires AuditClientPath(providers, groups).Ok? && AuditClientPath(providers, groups).value.status == Passed
    requires forall p :: p in used <==> UsedBy(groups, Find(groups, "__CR_AI_SERVICE_OPENAI").value.proxies, p)
    ensures var r, names := AuditClientPath(providers, groups).value, Find(groups, "__CR_AI_SERVICE_OPENAI").value.proxies;
            r.regions == |names| && r.providers == |used| && r.nodes == |Cells(SizesOf(providers, groups, names))|
  {
    AuditExactly(providers, groups);
    var names := Find(groups, TARGET).value.proxies;
    NodesCounted(providers, groups, names);
    UsedExactly(providers, groups, names, used);
  }

  lemma UsedExactly(providers: map<string, Provider>, groups: seq<Group>, names: seq<string>, used: set<string>)
    requires forall m :: m in names ==> Isolated(providers, groups, m)
    requires forall p :: p in used <==> UsedBy(groups, names, p)
    ensures used == set m | m in names :: RuntimeOf(groups, m)
  {
    forall m | m in names ensures RuntimeOf(groups, m) in used {
      assert Isolated(providers, groups, m);
      assert Find(groups, m).value.uses == [RuntimeOf(groups, m)];
    }
  }
}
