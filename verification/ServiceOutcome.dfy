/** What the service rewrite leaves, read off the final groups: the clones, the targets, and which country groups are hidden. */
module ServiceOutcome {
  import opened Results
  import opened Routing
  import opened Sifting
  import opened AiPruning
  import opened ServiceQualification
  import opened ServiceRewrite
  import opened ServiceReady
  import opened PruningOutcome
  import ServiceWiring
  import ExactFilter

  // ----- one service -----

  /** The providers of these countries. */
  ghost predicate ProvidersOf(picked: seq<string>, byPublic: map<string, string>, served: seq<string>) {
    |served| == |picked| && forall i :: 0 <= i < |picked| ==> picked[i] in byPublic && served[i] == byPublic[picked[i]]
  }

  predicate HasNode(w: string, byPublic: map<string, string>, names: map<string, set<string>>) {
    w in byPublic && byPublic[w] in names && names[byPublic[w]] != {}
  }

  /** The countries in order, without those that have no node for the service, as providers. */
  ghost predicate ServedIs(order: seq<string>, byPublic: map<string, string>, names: map<string, set<string>>, served: seq<string>) {
    exists picked :: Sifted(order, (w: string) => HasNode(w, byPublic, names), picked) && ProvidersOf(picked, byPublic, served)
  }

  lemma {:induction false} ServedExactlyIs(order: seq<string>, byPublic: map<string, string>, names: map<string, set<string>>)
    ensures ServedIs(order, byPublic, names, Served(order, byPublic, names))
  {
    if order == [] {
      var none: seq<string> := [];
      SiftedEmpty((w: string) => HasNode(w, byPublic, names));
      assert ProvidersOf(none, byPublic, []);
    } else {
      var n := |order| - 1;
      assert order == order[..n] + [order[n]];
      ServedExactlyIs(order[..n], byPublic, names);
      ServedNext(order[..n], order[n], byPublic, names, Served(order[..n], byPublic, names));
    }
  }

  lemma ServedNext(order: seq<string>, w: string, byPublic: map<string, string>, names: map<string, set<string>>, served: seq<string>)
    requires ServedIs(order, byPublic, names, served)
    ensures ServedIs(order + [w], byPublic, names, served + if HasNode(w, byPublic, names) then [byPublic[w]] else [])
  {
    var picked :| Sifted(order, (w: string) => HasNode(w, byPublic, names), picked) && ProvidersOf(picked, byPublic, served);
    SiftedSnoc(order, w, (w: string) => HasNode(w, byPublic, names), picked);
    if HasNode(w, byPublic, names) {
      assert ProvidersOf(picked + [w], byPublic, served + [byPublic[w]]);
    } else {
      assert served + [] == served;
    }
  }

  ghost predicate Restricts(filter: Option<string>, names: set<string>) { filter.Some? && forall n :: Admits(filter, n) <==> n in names }

  function ClonePrefix(s: Service): string {
    match s
    case OpenAi => "__CR_AI_OPENAI_"
    case Claude => "__CR_AI_CLAUDE_"
    case Gemini => "__CR_AI_GEMINI_"
  }

  lemma NamedByPrefix(s: Service, p: string, digest: string -> string)
    ensures CloneName(s, p, digest) == ClonePrefix(s) + digest(p)
  {
    assert "__CR_AI_" + Token(s) + "_" == ClonePrefix(s);
  }

  /** A copy of the anchor found among `groups` under the clone's name, hidden, with a filter that takes exactly the provider's names. */
  ghost predicate IsCloneAmong(groups: seq<Group>, g: Group, s: Service, p: string, plan: Plan) {
    && p in plan.anchors && p in plan.names && Find(groups, plan.anchors[p]).Some?
    && var source := Find(groups, plan.anchors[p]).value;
    && source.kind == "url-test" && (source.filter.None? || source.filter.value == "")
    && g == source.(name := ClonePrefix(s) + plan.digest(p), hidden := true, filter := g.filter)
    && Restricts(g.filter, plan.names[p])
  }

  /** One clone per served provider, in order, behind what was there. */
  ghost predicate Clones(groups: seq<Group>, out: seq<Group>, s: Service, served: seq<string>, plan: Plan) {
    && |out| == |groups| + |served| && out[..|groups|] == groups
    && forall i :: 0 <= i < |served| ==> IsCloneAmong(out[..|groups| + i], out[|groups| + i], s, served[i], plan)
  }

  lemma TextRestricts(names: set<string>)
    requires names != {}
    ensures Restricts(Some(ExactFilter.Text(names).value), names)
  {
    forall n ensures Admits(Some(ExactFilter.Text(names).value), n) <==> n in names {
      ExactFilter.SearchExact(names, n);
      ExactFilter.TextNonempty(names);
    }
  }

  lemma ClonesSnoc(groups: seq<Group>, out: seq<Group>, s: Service, served: seq<string>, plan: Plan, g: Group, p: string)
    requires Clones(groups, out, s, served, plan) && IsCloneAmong(out, g, s, p, plan)
    ensures Clones(groups, out + [g], s, served + [p], plan)
  {
    var more := out + [g];
    assert more[..|groups|] == out[..|groups|];
    forall i | 0 <= i < |served + [p]| ensures IsCloneAmong(more[..|groups| + i], more[|groups| + i], s, (served + [p])[i], plan) {
      if i < |served| {
        assert more[..|groups| + i] == out[..|groups| + i];
      } else {
        assert more[..|groups| + i] == out;
      }
    }
  }

  lemma {:induction false} CountriesCloned(groups: seq<Group>, s: Service, order: seq<string>, byPublic: map<string, string>, plan: Plan)
    requires CloneCountries(groups, s, order, byPublic, plan).Ok?
    ensures Clones(groups, CloneCountries(groups, s, order, byPublic, plan).value, s, Served(order, byPublic, plan.names), plan)
  {
    if order != [] {
      var n := |order| - 1;
      var w, init := order[n], CloneCountries(groups, s, order[..n], byPublic, plan).value;
      CountriesCloned(groups, s, order[..n], byPublic, plan);
      if w in byPublic && byPublic[w] in plan.names && plan.names[byPublic[w]] != {} {
        var p := byPublic[w];
        TextRestricts(plan.names[p]);
        NamedByPrefix(s, p, plan.digest);
        var g := CloneOf(Find(init, plan.anchors[p]).value, CloneName(s, p, plan.digest), plan.names[p]);
        ClonesSnoc(groups, init, s, Served(order[..n], byPublic, plan.names), plan, g, p);
      }
    } else {
      assert groups[..|groups|] == groups;
    }
  }

  /** The group a service is routed to: REJECT, one country, or a fallback over the countries, checked as the first clone is. */
  ghost predicate IsTargetOver(t: Group, name: string, children: seq<string>, clones: seq<Group>) {
    && t.name == name && t.hidden && t.uses == [] && t.filter.None?
    && t.proxies == (if children == [] then ["REJECT"] else children)
    && if |children| < 2 then t.kind == "select" && t.test == map[]
       else && t.kind == "fallback" && clones != [] && t.test.Keys == {"url", "interval", "timeout", "lazy", "expected-status"}
            && forall k :: k in t.test ==> k in clones[0].test && t.test[k] == clones[0].test[k]
  }

  function TargetName(s: Service): string {
    match s
    case OpenAi => "__CR_AI_SERVICE_OPENAI"
    case Claude => "__CR_AI_SERVICE_CLAUDE"
    case Gemini => "__CR_AI_SERVICE_GEMINI"
  }

  /** What one service adds: its clones, then its target over them in the same order. */
  ghost predicate ServiceAdded(groups: seq<Group>, out: seq<Group>, s: Service, served: seq<string>, plan: Plan) {
    && |out| == |groups| + |served| + 1 && Clones(groups, out[..|out| - 1], s, served, plan)
    && var clones := out[|groups|..|out| - 1];
    IsTargetOver(out[|out| - 1], TargetName(s), NamesOf(clones), clones)
  }

  function NamesOf(groups: seq<Group>): seq<string> { seq(|groups|, i requires 0 <= i < |groups| => groups[i].name) }

  lemma ServiceExactly(groups: seq<Group>, s: Service, order: seq<string>, byPublic: map<string, string>, plan: Plan)
    requires AddService(groups, s, order, byPublic, plan).Ok?
    ensures ServiceAdded(groups, AddService(groups, s, order, byPublic, plan).value, s, Served(order, byPublic, plan.names), plan)
  {
    var cloned, served := CloneCountries(groups, s, order, byPublic, plan).value, Served(order, byPublic, plan.names);
    CountriesCloned(groups, s, order, byPublic, plan);
    var out := AddService(groups, s, order, byPublic, plan).value;
    assert out[..|out| - 1] == cloned;
    var clones := cloned[|groups|..];
    assert out[|groups|..|out| - 1] == clones;
    ChildNames(groups, cloned, s, served, plan);
    TargetIs(s, NamesOf(clones), clones);
  }

  lemma ChildNames(groups: seq<Group>, cloned: seq<Group>, s: Service, served: seq<string>, plan: Plan)
    requires Clones(groups, cloned, s, served, plan)
    ensures NamesOf(cloned[|groups|..]) == Children(s, served, plan.digest)
  {
    var names, children := NamesOf(cloned[|groups|..]), Children(s, served, plan.digest);
    forall i | 0 <= i < |served| ensures names[i] == children[i] {
      CloneIsNamed(cloned[..|groups| + i], cloned[|groups| + i], s, served[i], plan);
    }
  }

  lemma CloneIsNamed(groups: seq<Group>, g: Group, s: Service, p: string, plan: Plan)
    requires IsCloneAmong(groups, g, s, p, plan)
    ensures g.name == CloneName(s, p, plan.digest)
  {
    NamedByPrefix(s, p, plan.digest);
  }

  lemma TargetIs(s: Service, children: seq<string>, clones: seq<Group>)
    requires |children| == |clones| && TargetGroup(s, children, if clones == [] then None else Some(clones[0])).Ok?
    ensures IsTargetOver(TargetGroup(s, children, if clones == [] then None else Some(clones[0])).value, TargetName(s), children, clones)
  {
    if |children| >= 2 {
      var t := TargetGroup(s, children, Some(clones[0])).value;
      ProbeKeys();
      assert t.test.Keys == {"url", "interval", "timeout", "lazy", "expected-status"} by {
        forall k ensures k in t.test <==> k in PROBE_KEYS { if k in PROBE_KEYS { assert k in clones[0].test; } }
      }
    }
  }

  lemma ProbeKeys()
    ensures forall k :: k in PROBE_KEYS <==> k in {"url", "interval", "timeout", "lazy", "expected-status"}
  {
    assert PROBE_KEYS[0] == "url" && PROBE_KEYS[1] == "interval" && PROBE_KEYS[2] == "timeout" && PROBE_KEYS[3] == "lazy" && PROBE_KEYS[4] == "expected-status";
  }

  // ----- the three services -----

  /** OpenAI, Claude and Gemini one after the other. */
  ghost predicate ServicesAdded(base: seq<Group>, out: seq<Group>, st: Setting)
    requires Probed(st.qualified)
  {
    exists a, b :: && ServiceAdded(base, a, OpenAi, ServedIn(st, OpenAi), PlanIn(st, OpenAi))
                   && ServiceAdded(a, b, Claude, ServedIn(st, Claude), PlanIn(st, Claude))
                   && ServiceAdded(b, out, Gemini, ServedIn(st, Gemini), PlanIn(st, Gemini))
  }

  lemma OneService(base: seq<Group>, done: seq<Service>, s: Service, st: Setting)
    requires Probed(st.qualified) && AddServices(base, done + [s], st).Ok?
    ensures AddServices(base, done, st).Ok?
    ensures ServiceAdded(AddServices(base, done, st).value, AddServices(base, done + [s], st).value, s, ServedIn(st, s), PlanIn(st, s))
  {
    assert (done + [s])[..|done|] == done;
    ServiceExactly(AddServices(base, done, st).value, s, st.order, st.byPublic, PlanIn(st, s));
  }

  lemma ServicesExactly(base: seq<Group>, st: Setting)
    requires Probed(st.qualified) && AddServices(base, SERVICES, st).Ok?
    ensures ServicesAdded(base, AddServices(base, SERVICES, st).value, st)
  {
    assert SERVICES == [OpenAi, Claude] + [Gemini] && [OpenAi, Claude] == [OpenAi] + [Claude] && [OpenAi] == [] + [OpenAi];
    OneService(base, [OpenAi, Claude], Gemini, st);
    OneService(base, [OpenAi], Claude, st);
    OneService(base, [], OpenAi, st);
  }

  // ----- hiding -----

  /** The wrapper of the anchor of an AI provider that is still there. */
  ghost predicate IsCountry(groups: seq<Group>, after: map<string, Provider>, w: string) {
    exists p, a :: p in after && "cr_ai_" <= p && AnchorOf(groups, p) == Some(a) && WrapperOf(groups, a) == Some(w)
  }

  lemma CountryExactly(st: Setting, groups: seq<Group>, w: string)
    requires SettingOf(st, groups)
    ensures w in st.byPublic <==> IsCountry(groups, PrunedProviders(st.providers, Union(st.qualified)), w)
  {
    var after := PrunedProviders(st.providers, Union(st.qualified));
    assert AI_PREFIX == "cr_ai_";
    if w in st.byPublic {
      var t :| t in st.routes && t.wrapper == w && t.provider == st.byPublic[w] && t.provider in after.Keys;
      assert AnchorOf(groups, t.provider) == Some(t.anchor) && WrapperOf(groups, t.anchor) == Some(w);
    }
    if p, a :| p in after && "cr_ai_" <= p && AnchorOf(groups, p) == Some(a) && WrapperOf(groups, a) == Some(w) {
      var t :| t in st.routes && t.provider == p;
      assert IsRoute(groups, t);
    }
  }

  /** The same groups in the same places, the countries hidden and every other flag as it was. */
  ghost predicate HiddenIn(groups: seq<Group>, after: map<string, Provider>, built: seq<Group>, final: seq<Group>) {
    && |final| == |built|
    && forall i :: 0 <= i < |built| ==>
         && final[i] == built[i].(hidden := final[i].hidden)
         && (final[i].hidden <==> built[i].hidden || IsCountry(groups, after, built[i].name))
  }

  lemma HideExactly(st: Setting, groups: seq<Group>, built: seq<Group>)
    requires SettingOf(st, groups)
    ensures HiddenIn(groups, PrunedProviders(st.providers, Union(st.qualified)), built, Hide(built, st.byPublic.Keys))
  {
    forall i | 0 <= i < |built|
      ensures built[i].name in st.byPublic.Keys <==> IsCountry(groups, PrunedProviders(st.providers, Union(st.qualified)), built[i].name)
    {
      CountryExactly(st, groups, built[i].name);
    }
  }


  // ----- the whole rewrite -----

  /** With these intermediate results the rewrite on the pruning path turns one candidate into the other. */
  ghost predicate RewrittenBy(st: Setting, providers: map<string, Provider>, groups: seq<Group>, preferred: Option<seq<string>>,
                              after: map<string, Provider>, final: seq<Group>) {
    && st.providers == providers && SettingOf(st, groups) && after == PrunedProviders(providers, Union(st.qualified))
    && OrderedCountryNames(st.byPublic.Keys, preferred, ServiceWiring.PolicyMembers(BaseOf(st, groups))) == Ok(st.order)
    && PolicyIndex(groups) < |groups|
    && var built := AddServices(BaseOf(st, groups), SERVICES, st);
       built.Ok? && (forall w :: w in st.byPublic.Keys ==> Find(built.value, w).Some?) && final == Hide(built.value, st.byPublic.Keys)
  }

  /** Pruning, then the services, then hiding. */
  lemma StagesExactly(st: Setting, providers: map<string, Provider>, groups: seq<Group>, preferred: Option<seq<string>>,
                      after: map<string, Provider>, final: seq<Group>) returns (base: seq<Group>, built: seq<Group>)
    requires RewrittenBy(st, providers, groups, preferred, after, final)
    ensures IsPolicy(groups, PolicyIndex(groups)) && PrunedTo(providers, groups, Union(st.qualified), PolicyIndex(groups), base)
    ensures ServicesAdded(base, built, st) && HiddenIn(groups, after, built, final)
  {
    base := BaseOf(st, groups);
    built := AddServices(base, SERVICES, st).value;
    PolicyExactly(groups, 0);
    PrunedExactly(providers, groups, Union(st.qualified), PolicyIndex(groups));
    ServicesExactly(base, st);
    HideExactly(st, groups, built);
  }

  /** The plan of a service: the anchor of every AI provider, and those of its nodes that passed. */
  lemma PlanExactly(st: Setting, groups: seq<Group>, s: Service, p: string)
    requires SettingOf(st, groups) && p in st.providers && "cr_ai_" <= p
    ensures s in st.qualified
    ensures var plan := PlanIn(st, s);
            && p in plan.anchors && AnchorOf(groups, p) == Some(plan.anchors[p]) && plan.digest == st.digest
            && p in plan.names && forall n :: n in plan.names[p] <==> n in st.qualified[s] && n in PayloadNames(st.providers[p])
  {
    assert AI_PREFIX == "cr_ai_";
    assert s == OpenAi || s == Claude || s == Gemini;
    var t :| t in st.routes && t.provider == p;
    var u :| u in st.routes && u.provider == p && u.anchor == PlanIn(st, s).anchors[p];
    assert IsRoute(groups, u);
  }

  lemma AddedBehind(groups: seq<Group>, out: seq<Group>, s: Service, served: seq<string>, plan: Plan)
    requires ServiceAdded(groups, out, s, served, plan)
    ensures groups <= out
  {
    assert out[..|out| - 1][..|groups|] == groups;
  }

  lemma PrefixThrough(base: seq<Group>, a: seq<Group>, b: seq<Group>, built: seq<Group>)
    requires base <= a && a <= b && b <= built
    ensures base <= built
  {
  }

  lemma BaseStays(base: seq<Group>, built: seq<Group>, st: Setting)
    requires Probed(st.qualified) && ServicesAdded(base, built, st)
    ensures base <= built
  {
    var a, b :| && ServiceAdded(base, a, OpenAi, ServedIn(st, OpenAi), PlanIn(st, OpenAi))
                && ServiceAdded(a, b, Claude, ServedIn(st, Claude), PlanIn(st, Claude))
                && ServiceAdded(b, built, Gemini, ServedIn(st, Gemini), PlanIn(st, Gemini));
    AddedBehind(base, a, OpenAi, ServedIn(st, OpenAi), PlanIn(st, OpenAi));
    AddedBehind(a, b, Claude, ServedIn(st, Claude), PlanIn(st, Claude));
    AddedBehind(b, built, Gemini, ServedIn(st, Gemini), PlanIn(st, Gemini));
    PrefixThrough(base, a, b, built);
  }

  /** A group that does not go: its fields, its members unless it is the policy, and hidden if it was or if it is a country. */
  ghost predicate Survives(g: Group, h: Group, groups: seq<Group>, after: map<string, Provider>) {
    && h == g.(hidden := h.hidden, proxies := h.proxies)
    && (h.hidden <==> g.hidden || IsCountry(groups, after, g.name))
    && (g.name != "人工智能" ==> h.proxies == g.proxies)
  }

  lemma SurvivorsExactly(st: Setting, providers: map<string, Provider>, groups: seq<Group>, preferred: Option<seq<string>>,
                         after: map<string, Provider>, final: seq<Group>, g: Group)
    requires RewrittenBy(st, providers, groups, preferred, after, final) && UniqueNames(groups) && UniqueNames(final)
    requires g in groups && !GroupGoes(providers, groups, Union(st.qualified), groups[PolicyIndex(groups)].proxies, g.name)
    ensures Find(final, g.name).Some? && Survives(g, Find(final, g.name).value, groups, after)
  {
    var base, built := StagesExactly(st, providers, groups, preferred, after, final);
    var policy := PolicyIndex(groups);
    BaseStays(base, built, st);
    var i, k := PlaceOf(providers, groups, Union(st.qualified), policy, base, g);
    assert built[k] == base[k];
    FindUnique(final, k);
    LeftSurvives(g, base[k], final[k], providers, groups, Union(st.qualified), policy, i, after);
  }

  /** Where a group that does not go stands afterwards. */
  lemma PlaceOf(providers: map<string, Provider>, groups: seq<Group>, names: set<string>, policy: nat, base: seq<Group>, g: Group) returns (i: nat, k: nat)
    requires policy < |groups| && PrunedTo(providers, groups, names, policy, base)
    requires g in groups && !GroupGoes(providers, groups, names, groups[policy].proxies, g.name)
    ensures i < |groups| && groups[i] == g && k < |base| && Left(g, base[k], providers, groups, names, policy, i)
  {
    var at: seq<nat> :| PrunedAt(providers, groups, names, policy, base, at);
    i :| 0 <= i < |groups| && groups[i] == g;
    assert i in at;
    k :| 0 <= k < |at| && at[k] == i;
  }

  lemma LeftSurvives(g: Group, b: Group, h: Group, providers: map<string, Provider>, groups: seq<Group>, names: set<string>, policy: nat, i: nat,
                     after: map<string, Provider>)
    requires policy < |groups| && IsPolicy(groups, policy) && i < |groups| && groups[i] == g && Left(g, b, providers, groups, names, policy, i)
    requires h == b.(hidden := h.hidden) && (h.hidden <==> b.hidden || IsCountry(groups, after, b.name))
    ensures h.name == g.name && Survives(g, h, groups, after)
  {
  }

  /** Every country of a provider that stays is there, and hidden. */
  ghost predicate CountriesHidden(groups: seq<Group>, after: map<string, Provider>, final: seq<Group>) {
    forall w :: IsCountry(groups, after, w) ==> Find(final, w).Some? && Find(final, w).value.hidden
  }

  lemma {:induction false} HiddenFound(groups: seq<Group>, names: set<string>, n: string)
    ensures Find(groups, n).Some? ==> Find(Hide(groups, names), n) == Some(Find(groups, n).value.(hidden := Find(groups, n).value.hidden || n in names))
  {
    if groups != [] {
      HiddenFound(groups[1..], names, n);
      assert Hide(groups, names)[1..] == Hide(groups[1..], names);
    }
  }

  lemma CountriesAreHidden(st: Setting, providers: map<string, Provider>, groups: seq<Group>, preferred: Option<seq<string>>,
                           after: map<string, Provider>, final: seq<Group>)
    requires RewrittenBy(st, providers, groups, preferred, after, final)
    ensures CountriesHidden(groups, after, final)
  {
    var built := AddServices(BaseOf(st, groups), SERVICES, st).value;
    forall w | IsCountry(groups, after, w) ensures Find(final, w).Some? && Find(final, w).value.hidden {
      CountryExactly(st, groups, w);
      HiddenFound(built, st.byPublic.Keys, w);
    }
  }

  // ----- failing closed -----

  predicate IsCountryName(n: string) { n in {"AI · 美国", "AI · 新加坡", "AI · 日本", "AI · 台湾", "AI · 韩国", "AI · 其他地区"} }

  /** A group with a country's name, or the wrapper of an AI provider's anchor. */
  ghost predicate IsPublic(groups: seq<Group>, providers: map<string, Provider>, n: string) {
    || (IsCountryName(n) && exists g :: g in groups && g.name == n)
    || exists p, a :: p in providers && "cr_ai_" <= p && AnchorOf(groups, p) == Some(a) && WrapperOf(groups, a) == Some(n)
  }

  /** Those go, and the anchors of AI providers, and the hidden rejecting groups that a public group lists. */
  ghost predicate Closes(groups: seq<Group>, providers: map<string, Provider>, n: string) {
    || IsPublic(groups, providers, n)
    || (exists p :: p in providers && "cr_ai_" <= p && AnchorOf(groups, p) == Some(n))
    || exists w :: && IsPublic(groups, providers, w) && FindLast(groups, w).Some? && n in FindLast(groups, w).value.proxies
                   && FindLast(groups, n).Some? && FindLast(groups, n).value.hidden && FindLast(groups, n).value.proxies == ["REJECT"]
  }

  lemma RegionNames(n: string)
    ensures n in CountryNames() <==> IsCountryName(n)
  {
    assert "US" in REGIONS && "SG" in REGIONS && "JP" in REGIONS && "TW" in REGIONS && "KR" in REGIONS && "OTHER" in REGIONS;
    assert REGIONS["US"] in CountryNames() && REGIONS["SG"] in CountryNames() && REGIONS["JP"] in CountryNames();
    assert REGIONS["TW"] in CountryNames() && REGIONS["KR"] in CountryNames() && REGIONS["OTHER"] in CountryNames();
  }

  lemma RouteOf(routes: seq<Routed>, groups: seq<Group>, providers: map<string, Provider>, p: string)
    requires RoutesOf(routes, groups, AiProviders(providers)) && p in providers && "cr_ai_" <= p
    ensures exists t :: t in routes && t.provider == p && AnchorOf(groups, p) == Some(t.anchor) && WrapperOf(groups, t.anchor) == Some(t.wrapper)
  {
    assert AI_PREFIX == "cr_ai_" && p in AiProviders(providers);
    var t :| t in routes && t.provider == p;
    assert IsRoute(groups, t);
  }

  lemma PublicExactly(routes: seq<Routed>, groups: seq<Group>, providers: map<string, Provider>, n: string)
    requires RoutesOf(routes, groups, AiProviders(providers))
    ensures n in PublicNames(groups, routes) <==> IsPublic(groups, providers, n)
  {
    assert AI_PREFIX == "cr_ai_";
    RegionNames(n);
    if p, a :| p in providers && "cr_ai_" <= p && AnchorOf(groups, p) == Some(a) && WrapperOf(groups, a) == Some(n) {
      RouteOf(routes, groups, providers, p);
    }
    if t :| t in routes && t.wrapper == n { assert IsRoute(groups, t); }
  }

  lemma ClosesExactly(routes: seq<Routed>, groups: seq<Group>, providers: map<string, Provider>, n: string)
    requires RoutesOf(routes, groups, AiProviders(providers))
    ensures n in RouteGroups(groups, routes) <==> Closes(groups, providers, n)
  {
    assert AI_PREFIX == "cr_ai_";
    forall w ensures w in PublicNames(groups, routes) <==> IsPublic(groups, providers, w) { PublicExactly(routes, groups, providers, w); }
    if p :| p in providers && "cr_ai_" <= p && AnchorOf(groups, p) == Some(n) { RouteOf(routes, groups, providers, p); }
    if t :| t in routes && t.anchor == n { assert IsRoute(groups, t); }
  }

  /** The hidden group that only rejects. */
  ghost predicate IsClosedTarget(t: Group, s: Service) {
    t.name == TargetName(s) && t.kind == "select" && t.hidden && t.uses == [] && t.proxies == ["REJECT"] && t.filter.None? && t.test == map[]
  }

  /** The groups that stay, in order, the policy rejecting, and then the three rejecting targets. */
  ghost predicate ClosedAt(groups: seq<Group>, providers: map<string, Provider>, policy: nat, out: seq<Group>, at: seq<nat>)
    requires policy < |groups|
  {
    && Increasing(at) && Picks(groups, (g: Group) => !Closes(groups, providers, g.name), at) && |out| == |at| + 3
    && (forall k :: 0 <= k < |at| ==>
          at[k] < |groups| && out[k] == if at[k] == policy then groups[policy].(proxies := ["REJECT"]) else groups[at[k]])
    && IsClosedTarget(out[|at|], OpenAi) && IsClosedTarget(out[|at| + 1], Claude) && IsClosedTarget(out[|at| + 2], Gemini)
  }

  lemma KeptPicks(groups: seq<Group>, updated: seq<Group>, removed: set<string>, at: seq<nat>, stays: Group -> bool)
    requires |updated| == |groups| && forall i :: 0 <= i < |groups| ==> updated[i].name == groups[i].name
    requires Picks(updated, (g: Group) => g.name !in removed, at) && forall g: Group :: stays(g) <==> g.name !in removed
    ensures Picks(groups, stays, at)
  {
    forall k: nat ensures k in at <==> k < |groups| && stays(groups[k]) { assert k in at <==> k < |updated| && updated[k].name !in removed; }
  }

  lemma KeptAt(groups: seq<Group>, updated: seq<Group>, removed: set<string>, policy: nat) returns (at: seq<nat>)
    requires policy < |groups| && updated == groups[policy := groups[policy].(proxies := ["REJECT"])]
    ensures Increasing(at) && Picks(updated, (g: Group) => g.name !in removed, at) && |at| == |Keep(updated, removed)|
    ensures forall k :: 0 <= k < |at| ==>
              at[k] < |groups| && Keep(updated, removed)[k] == if at[k] == policy then groups[policy].(proxies := ["REJECT"]) else groups[at[k]]
  {
    KeepInOrder(updated, removed);
    at :| Increasing(at) && Picks(updated, (g: Group) => g.name !in removed, at) && ReadAt(updated, at, Keep(updated, removed));
    forall k | 0 <= k < |at|
      ensures at[k] < |groups| && Keep(updated, removed)[k] == if at[k] == policy then groups[policy].(proxies := ["REJECT"]) else groups[at[k]]
    {
      assert Keep(updated, removed)[k] == updated[at[k]];
    }
  }

  lemma TargetsClosed(kept: seq<Group>)
    ensures var out, n := kept + RejectTargets(), |kept|;
            |out| == n + 3 && out[..n] == kept && IsClosedTarget(out[n], OpenAi) && IsClosedTarget(out[n + 1], Claude) && IsClosedTarget(out[n + 2], Gemini)
  {
  }

  /** What failing closed leaves of the groups. */
  lemma ClosedExactly(routes: seq<Routed>, groups: seq<Group>, providers: map<string, Provider>) returns (at: seq<nat>)
    requires RoutesOf(routes, groups, AiProviders(providers)) && PolicyIndex(groups) < |groups|
    ensures IsPolicy(groups, PolicyIndex(groups)) && ClosedAt(groups, providers, PolicyIndex(groups), ClosedGroups(groups, routes), at)
  {
    var policy, removed := PolicyIndex(groups), RouteGroups(groups, routes);
    var updated := groups[policy := groups[policy].(proxies := ["REJECT"])];
    PolicyExactly(groups, 0);
    at := KeptAt(groups, updated, removed, policy);
    forall n ensures n in removed <==> Closes(groups, providers, n) { ClosesExactly(routes, groups, providers, n); }
    KeptPicks(groups, updated, removed, at, (g: Group) => !Closes(groups, providers, g.name));
    TargetsClosed(Keep(updated, removed));
    assert ClosedGroups(groups, routes) == Keep(updated, removed) + RejectTargets();
  }
}
