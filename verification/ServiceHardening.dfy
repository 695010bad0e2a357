/** The service rewrite leaves an OpenAI target the client-path hardening can take. */
module ServiceHardening {
  import opened Results
  import opened Routing
  import opened AiPruning
  import opened ServiceQualification
  import opened ServiceLeaves
  import opened ServiceRewrite
  import ClientPath
  import ExactFilter

  /** The runtime providers of the clones have names of their own. */
  ghost predicate RuntimeNamesFree(providers: map<string, Provider>, served: seq<string>, digest: string -> string, lib: ClientPath.Library) {
    var names := Children(OpenAi, served, digest);
    && (forall m :: m in names ==> ClientPath.RuntimeProviderName(m, lib) !in providers)
    && forall i, j :: 0 <= i < j < |names| ==> ClientPath.RuntimeProviderName(names[i], lib) != ClientPath.RuntimeProviderName(names[j], lib)
  }

  lemma ClonePrefix(p: string, digest: string -> string)
    ensures ClientPath.ANCHOR_PREFIX <= CloneName(OpenAi, p, digest)
  {
    assert "__CR_AI_" + Token(OpenAi) + "_" == ClientPath.ANCHOR_PREFIX;
  }

  /** A filter made from names of the payload selects at least one node. */
  lemma SomeSelected(payload: seq<Proxy>, names: set<string>, lib: ClientPath.Library)
    requires names != {} && names <= set x | x in payload :: x.name
    ensures ExactFilter.Parse(ExactFilter.Text(names).value).Some? && ClientPath.Selected(payload, ExactFilter.Text(names).value, lib) != []
  {
    ExactFilter.ParseText(names);
    var n :| n in names;
    ExactFilter.FullMatchExact(names, n, ExactFilter.Python);
    var x :| x in payload && x.name == n;
    assert x in ClientPath.Selected(payload, ExactFilter.Text(names).value, lib);
  }

  /** A clone can be hardened. */
  lemma CloneHardens(providers: map<string, Provider>, groups: seq<Group>, p: string, names: set<string>, digest: string -> string, lib: ClientPath.Library)
    requires names != {} && CloneIn(groups, OpenAi, p, names, digest)
    requires p in providers && providers[p].payload.Some? && names <= PayloadNames(providers[p])
    requires ClientPath.RuntimeProviderName(CloneName(OpenAi, p, digest), lib) !in providers
    ensures ClientPath.RuntimeFor(providers, groups, CloneName(OpenAi, p, digest), lib).Some?
  {
    ClonePrefix(p, digest);
    SomeSelected(providers[p].payload.value, names, lib);
  }

  lemma {:induction false} AllHarden(providers: map<string, Provider>, groups: seq<Group>, names: seq<string>, lib: ClientPath.Library)
    requires forall m :: m in names ==> ClientPath.RuntimeFor(providers, groups, m, lib).Some?
    requires forall i, j :: 0 <= i < j < |names| ==> ClientPath.RuntimeProviderName(names[i], lib) != ClientPath.RuntimeProviderName(names[j], lib)
    ensures ClientPath.Hardens(providers, groups, names, lib)
  {
    if names != [] { AllHarden(providers, groups, names[..|names| - 1], lib); }
  }

  lemma ServedHarden(providers: map<string, Provider>, groups: seq<Group>, served: seq<string>, names: map<string, set<string>>,
                     digest: string -> string, lib: ClientPath.Library)
    requires RuntimeNamesFree(providers, served, digest, lib)
    requires forall p :: p in served ==>
               && p in names && names[p] != {} && p in providers && providers[p].payload.Some? && names[p] <= PayloadNames(providers[p])
               && CloneIn(groups, OpenAi, p, names[p], digest)
    ensures ClientPath.Hardens(providers, groups, Children(OpenAi, served, digest), lib)
  {
    var children := Children(OpenAi, served, digest);
    forall m | m in children ensures ClientPath.RuntimeFor(providers, groups, m, lib).Some? {
      var i :| 0 <= i < |children| && children[i] == m;
      CloneHardens(providers, groups, served[i], names[served[i]], digest, lib);
    }
    AllHarden(providers, groups, children, lib);
  }

  /** The OpenAI target has anchors, and they can all be hardened. */
  ghost predicate TargetReady(providers: map<string, Provider>, groups: seq<Group>, lib: ClientPath.Library) {
    var t := Find(groups, ClientPath.TARGET);
    t.Some? && t.value.proxies != [] && ClientPath.Hardens(providers, groups, t.value.proxies, lib)
  }

  /** The groups after the services, over a candidate of the generator's shape. */
  ghost predicate Rewrites(st: Setting, groups: seq<Group>, out: seq<Group>) {
    && SettingOf(st, groups) && GeneratorShape(st.providers, groups)
    && AddServices(PrunedGroups(groups, Emptied(st.providers, Union(st.qualified))), SERVICES, st) == Ok(out)
  }

  lemma ServedSome(st: Setting, groups: seq<Group>, s: Service)
    requires SettingOf(st, groups) && GeneratorShape(st.providers, groups) && st.qualified[s] != {}
    ensures ServedIn(st, s) != []
  {
    var x :| x in st.qualified[s];
    ServedUnion(st, groups, s, x);
  }

  lemma TargetListed(st: Setting, groups: seq<Group>, out: seq<Group>, hidden: set<string>, s: Service)
    requires Rewrites(st, groups, out) && UniqueNames(Hide(out, hidden)) && st.qualified[s] != {}
    ensures var t := Find(Hide(out, hidden), Target(s)); t.Some? && t.value.proxies == Children(s, ServedIn(st, s), st.digest) && t.value.proxies != []
  {
    ServicesBuilt(st, groups, s);
    ServedSome(st, groups, s);
    TargetStands(out, hidden, s, ServedIn(st, s), PlanIn(st, s));
  }

  lemma ServedCloned(st: Setting, groups: seq<Group>, out: seq<Group>, hidden: set<string>, s: Service, p: string)
    requires Rewrites(st, groups, out) && UniqueNames(Hide(out, hidden)) && p in ServedIn(st, s)
    ensures var providers, names := PrunedProviders(st.providers, Union(st.qualified)), PlanIn(st, s).names;
            && p in names && names[p] != {} && p in providers && providers[p].payload.Some? && names[p] <= PayloadNames(providers[p])
            && CloneIn(Hide(out, hidden), s, p, names[p], st.digest)
  {
    ServicesBuilt(st, groups, s);
    ServedPayload(st, groups, s, p);
    CloneStands(out, hidden, s, p, PlanIn(st, s));
  }

  lemma ClonesHarden(st: Setting, groups: seq<Group>, out: seq<Group>, hidden: set<string>, lib: ClientPath.Library)
    requires Rewrites(st, groups, out) && UniqueNames(Hide(out, hidden))
    requires RuntimeNamesFree(PrunedProviders(st.providers, Union(st.qualified)), ServedIn(st, OpenAi), st.digest, lib)
    ensures ClientPath.Hardens(PrunedProviders(st.providers, Union(st.qualified)), Hide(out, hidden), Children(OpenAi, ServedIn(st, OpenAi), st.digest), lib)
  {
    forall p | p in ServedIn(st, OpenAi)
      ensures var providers, names := PrunedProviders(st.providers, Union(st.qualified)), PlanIn(st, OpenAi).names;
              && p in names && names[p] != {} && p in providers && providers[p].payload.Some? && names[p] <= PayloadNames(providers[p])
              && CloneIn(Hide(out, hidden), OpenAi, p, names[p], st.digest)
    {
      ServedCloned(st, groups, out, hidden, OpenAi, p);
    }
    ServedHarden(PrunedProviders(st.providers, Union(st.qualified)), Hide(out, hidden), ServedIn(st, OpenAi), PlanIn(st, OpenAi).names, st.digest, lib);
  }

  /** After the pruning rewrite the OpenAI target meets everything the hardening asks for. */
  lemma RewriteHardens(st: Setting, groups: seq<Group>, out: seq<Group>, hidden: set<string>, lib: ClientPath.Library)
    requires Rewrites(st, groups, out) && UniqueNames(Hide(out, hidden)) && st.qualified[OpenAi] != {}
    requires RuntimeNamesFree(PrunedProviders(st.providers, Union(st.qualified)), ServedIn(st, OpenAi), st.digest, lib)
    ensures TargetReady(PrunedProviders(st.providers, Union(st.qualified)), Hide(out, hidden), lib)
  {
    TargetListed(st, groups, out, hidden, OpenAi);
    ClonesHarden(st, groups, out, hidden, lib);
  }
}
