/** The service rewrite followed by the client-path hardening: what every service reaches in the end. */
module ServicePath {
  import opened Routing
  import opened AiPruning
  import opened ServiceQualification
  import opened ServiceLeaves
  import opened ServiceRewrite
  import opened ServiceBlocks
  import opened ServiceHardening
  import ClientPath
  import ClientPathLeaves

  /** A rewritten candidate and what hardening makes of it. */
  ghost predicate Hardened(st: Setting, groups: seq<Group>, out: seq<Group>, hidden: set<string>, after: map<string, Provider>, final: seq<Group>,
                           lib: ClientPath.Library) {
    && Rewrites(st, groups, out) && UniqueNames(Hide(out, hidden))
    && ClientPath.HardenedFrom(PrunedProviders(st.providers, Union(st.qualified)), Hide(out, hidden), after, final,
                               Children(OpenAi, ServedIn(st, OpenAi), st.digest), lib)
  }

  // ----- Claude and Gemini -----

  /** The target of a service and its clones. */
  function Region(s: Service, served: seq<string>, digest: string -> string): set<string> {
    {Target(s)} + set m | m in Children(s, served, digest)
  }

  lemma ChildOf(s: Service, served: seq<string>, digest: string -> string, m: string) returns (p: string)
    requires m in Children(s, served, digest)
    ensures p in served && m == CloneName(s, p, digest)
  {
    var i :| 0 <= i < |served| && Children(s, served, digest)[i] == m;
    p := served[i];
  }

  /** The names of a service are no OpenAI names. */
  lemma NotOpenAi(s: Service, served: seq<string>, others: seq<string>, digest: string -> string, x: string)
    requires s != OpenAi && x in Region(s, served, digest)
    ensures x != Target(OpenAi) && x !in Children(OpenAi, others, digest)
  {
    if x == Target(s) {
      NamesApart(s, "", OpenAi, "", digest);
      forall m | m in Children(OpenAi, others, digest) ensures x != m {
        var q := ChildOf(OpenAi, others, digest, m);
        NamesApart(OpenAi, q, s, "", digest);
      }
    } else {
      var p := ChildOf(s, served, digest, x);
      NamesApart(s, p, OpenAi, "", digest);
      forall m | m in Children(OpenAi, others, digest) ensures x != m {
        var q := ChildOf(OpenAi, others, digest, m);
        NamesApart(s, p, OpenAi, q, digest);
      }
    }
  }

  lemma TargetMembers(st: Setting, groups: seq<Group>, out: seq<Group>, hidden: set<string>, s: Service)
    requires Rewrites(st, groups, out) && UniqueNames(Hide(out, hidden))
    ensures var t := Find(Hide(out, hidden), Target(s));
            t.Some? && t.value.uses == [] && forall m :: m in t.value.proxies ==> m in BUILTINS || m in Children(s, ServedIn(st, s), st.digest)
  {
    ServicesBuilt(st, groups, s);
    TargetStands(out, hidden, s, ServedIn(st, s), PlanIn(st, s));
    NotBuiltin(s, "", st.digest);
  }

  /** The group refers to builtins and the region only, and uses providers that are there. */
  ghost predicate Inside(providers: map<string, Provider>, groups: seq<Group>, region: set<string>, x: string) {
    var g := Find(groups, x);
    && g.Some? && (forall m :: m in g.value.proxies ==> m in region || m in BUILTINS) && (forall p :: p in g.value.uses ==> p in providers)
  }

  lemma CloneInside(providers: map<string, Provider>, groups: seq<Group>, s: Service, p: string, names: set<string>, digest: string -> string, region: set<string>)
    requires names != {} && CloneIn(groups, s, p, names, digest) && p in providers
    ensures Inside(providers, groups, region, CloneName(s, p, digest))
  {
  }

  lemma MembersApart(st: Setting, groups: seq<Group>, out: seq<Group>, hidden: set<string>, s: Service, x: string)
    requires Rewrites(st, groups, out) && UniqueNames(Hide(out, hidden)) && x in Region(s, ServedIn(st, s), st.digest)
    ensures Inside(PrunedProviders(st.providers, Union(st.qualified)), Hide(out, hidden), Region(s, ServedIn(st, s), st.digest), x)
  {
    if x == Target(s) {
      TargetMembers(st, groups, out, hidden, s);
    } else {
      var p := ChildOf(s, ServedIn(st, s), st.digest, x);
      ServedCloned(st, groups, out, hidden, s, p);
      CloneInside(PrunedProviders(st.providers, Union(st.qualified)), Hide(out, hidden), s, p, PlanIn(st, s).names[p], st.digest,
                  Region(s, ServedIn(st, s), st.digest));
    }
  }

  lemma ServiceApart(st: Setting, groups: seq<Group>, out: seq<Group>, hidden: set<string>, s: Service)
    requires Rewrites(st, groups, out) && UniqueNames(Hide(out, hidden)) && s != OpenAi
    ensures ClientPathLeaves.Apart(PrunedProviders(st.providers, Union(st.qualified)), Hide(out, hidden),
                                   Children(OpenAi, ServedIn(st, OpenAi), st.digest), Region(s, ServedIn(st, s), st.digest))
  {
    forall x | x in Region(s, ServedIn(st, s), st.digest)
      ensures x != Target(OpenAi) && x !in Children(OpenAi, ServedIn(st, OpenAi), st.digest)
      ensures Inside(PrunedProviders(st.providers, Union(st.qualified)), Hide(out, hidden), Region(s, ServedIn(st, s), st.digest), x)
    {
      NotOpenAi(s, ServedIn(st, s), ServedIn(st, OpenAi), st.digest, x);
      MembersApart(st, groups, out, hidden, s, x);
    }
  }

  /** After rewrite and hardening Claude and Gemini reach exactly their qualified nodes, or REJECT. */
  lemma OthersReach(st: Setting, groups: seq<Group>, out: seq<Group>, hidden: set<string>, after: map<string, Provider>, final: seq<Group>,
                    lib: ClientPath.Library, s: Service, leaf: Leaf)
    requires Hardened(st, groups, out, hidden, after, final, lib) && s != OpenAi
    ensures IsLeaf(after, final, Target(s), leaf) <==> leaf in Expected(st.qualified[s])
  {
    ServiceApart(st, groups, out, hidden, s);
    ClientPathLeaves.OthersUntouched(PrunedProviders(st.providers, Union(st.qualified)), Hide(out, hidden), after, final,
                                     Children(OpenAi, ServedIn(st, OpenAi), st.digest), lib, Region(s, ServedIn(st, s), st.digest), Target(s), leaf);
    PrunedRewriteLeaves(st, groups, hidden, s, leaf);
  }

  // ----- OpenAI -----

  lemma SourcesKnown(st: Setting, groups: seq<Group>, out: seq<Group>, hidden: set<string>)
    requires Rewrites(st, groups, out) && UniqueNames(Hide(out, hidden))
    ensures ClientPathLeaves.SourcesDeclared(PrunedProviders(st.providers, Union(st.qualified)), Hide(out, hidden),
                                             Children(OpenAi, ServedIn(st, OpenAi), st.digest))
  {
    forall m | m in Children(OpenAi, ServedIn(st, OpenAi), st.digest)
      ensures Find(Hide(out, hidden), m).Some?
      ensures forall p :: p in Find(Hide(out, hidden), m).value.uses ==> p in PrunedProviders(st.providers, Union(st.qualified))
    {
      MembersApart(st, groups, out, hidden, OpenAi, m);
    }
  }

  /** An OpenAI clone selects exactly the qualified nodes of its provider. */
  lemma CloneSelects(st: Setting, groups: seq<Group>, out: seq<Group>, hidden: set<string>, p: string, lib: ClientPath.Library)
    requires Rewrites(st, groups, out) && UniqueNames(Hide(out, hidden)) && p in ServedIn(st, OpenAi)
    ensures p in AiProviders(st.providers)
    ensures ClientPathLeaves.SelectedNames(PrunedProviders(st.providers, Union(st.qualified)), Hide(out, hidden), CloneName(OpenAi, p, st.digest), lib)
            == PayloadNames(st.providers[p]) * st.qualified[OpenAi]
  {
    ServedCloned(st, groups, out, hidden, OpenAi, p);
    ClientPathLeaves.ExactSelection(PrunedProviders(st.providers, Union(st.qualified)), Hide(out, hidden), CloneName(OpenAi, p, st.digest), p,
                                    PlanIn(st, OpenAi).names[p], lib);
  }

  /** A renamed node of an AI provider that qualified for OpenAI. */
  ghost predicate RenamedNode(st: Setting, lib: ClientPath.Library, p: string, n: string, leaf: Leaf)
    requires Probed(st.qualified)
  {
    && p in AiProviders(st.providers) && n in PayloadNames(st.providers[p]) * st.qualified[OpenAi]
    && leaf == Node(ClientPath.RuntimeName(CloneName(OpenAi, p, st.digest), n, lib))
  }

  lemma QualifiedIsServed(st: Setting, groups: seq<Group>, p: string, n: string)
    requires SettingOf(st, groups) && GeneratorShape(st.providers, groups)
    requires p in AiProviders(st.providers) && n in PayloadNames(st.providers[p]) * st.qualified[OpenAi]
    ensures p in ServedIn(st, OpenAi) && CloneName(OpenAi, p, st.digest) in Children(OpenAi, ServedIn(st, OpenAi), st.digest)
  {
    ServedExactly(st, groups, OpenAi, p);
    assert n in PlanIn(st, OpenAi).names[p];
    var i :| 0 <= i < |ServedIn(st, OpenAi)| && ServedIn(st, OpenAi)[i] == p;
    assert Children(OpenAi, ServedIn(st, OpenAi), st.digest)[i] == CloneName(OpenAi, p, st.digest);
  }

  lemma OpenAiTarget(st: Setting, groups: seq<Group>, out: seq<Group>, hidden: set<string>, after: map<string, Provider>, final: seq<Group>,
                     lib: ClientPath.Library, leaf: Leaf)
    requires Hardened(st, groups, out, hidden, after, final, lib)
    ensures IsLeaf(after, final, Target(OpenAi), leaf)
            <==> leaf.Node? && (exists m, n :: && m in Children(OpenAi, ServedIn(st, OpenAi), st.digest)
                                               && n in ClientPathLeaves.SelectedNames(PrunedProviders(st.providers, Union(st.qualified)), Hide(out, hidden), m, lib)
                                               && leaf.name == ClientPath.RuntimeName(m, n, lib))
  {
    TargetMembers(st, groups, out, hidden, OpenAi);
    SourcesKnown(st, groups, out, hidden);
    ClientPathLeaves.HardenedLeaves(PrunedProviders(st.providers, Union(st.qualified)), Hide(out, hidden), after, final,
                                    Children(OpenAi, ServedIn(st, OpenAi), st.digest), lib, leaf);
  }

  /** After rewrite and hardening OpenAI reaches exactly its qualified nodes under their runtime names. */
  lemma OpenAiReaches(st: Setting, groups: seq<Group>, out: seq<Group>, hidden: set<string>, after: map<string, Provider>, final: seq<Group>,
                      lib: ClientPath.Library, leaf: Leaf)
    requires Hardened(st, groups, out, hidden, after, final, lib)
    ensures IsLeaf(after, final, Target(OpenAi), leaf) <==> exists p, n :: RenamedNode(st, lib, p, n, leaf)
  {
    OpenAiTarget(st, groups, out, hidden, after, final, lib, leaf);
    var children := Children(OpenAi, ServedIn(st, OpenAi), st.digest);
    if IsLeaf(after, final, Target(OpenAi), leaf) {
      var m, n :| m in children && n in ClientPathLeaves.SelectedNames(PrunedProviders(st.providers, Union(st.qualified)), Hide(out, hidden), m, lib)
                  && leaf.name == ClientPath.RuntimeName(m, n, lib);
      var p := ChildOf(OpenAi, ServedIn(st, OpenAi), st.digest, m);
      CloneSelects(st, groups, out, hidden, p, lib);
      assert RenamedNode(st, lib, p, n, leaf);
    }
    if p, n :| RenamedNode(st, lib, p, n, leaf) {
      QualifiedIsServed(st, groups, p, n);
      CloneSelects(st, groups, out, hidden, p, lib);
    }
  }
}
