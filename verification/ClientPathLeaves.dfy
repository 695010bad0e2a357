/** What hardening does to the leaves: OpenAI's become renamed clones, everyone else's stay. */
module ClientPathLeaves {
  import opened Results
  import opened Routing
  import opened ClientPath
  import ExactFilter
  import ServiceLeaves

  /** The source names an anchor's filter selects, fixed before hardening. */
  function SelectedNames(providers: map<string, Provider>, groups: seq<Group>, m: string, lib: Library): set<string> {
    var a := Find(groups, m);
    if a.None? || |a.value.uses| != 1 || a.value.filter.None? || a.value.uses[0] !in providers || providers[a.value.uses[0]].payload.None? then {}
    else set x | x in Selected(providers[a.value.uses[0]].payload.value, a.value.filter.value, lib) :: x.name
  }

  /** Every anchor's source provider is declared, as validation demands. */
  ghost predicate SourcesDeclared(before: map<string, Provider>, groups: seq<Group>, references: seq<string>) {
    forall m :: m in references ==> Find(groups, m).Some? && forall p :: p in Find(groups, m).value.uses ==> p in before
  }

  lemma RenamedNames(payload: seq<Proxy>, m: string, lib: Library, x: string)
    ensures (exists q :: q in Renamed(payload, m, lib) && q.name == x) <==> exists p :: p in payload && x == RuntimeName(m, p.name, lib)
  {
    var renamed := Renamed(payload, m, lib);
    if q :| q in renamed && q.name == x {
      var i :| 0 <= i < |renamed| && renamed[i] == q;
      assert payload[i] in payload;
    }
    if p :| p in payload && x == RuntimeName(m, p.name, lib) {
      var i :| 0 <= i < |payload| && payload[i] == p;
      assert renamed[i] in renamed;
    }
  }

  lemma SoleProviderLeaves(providers: map<string, Provider>, g: Group, key: string, leaf: Leaf)
    requires g.uses == [key] && key in providers && g.filter.None?
    ensures leaf in ProviderLeaves(providers, g) <==> leaf.Node? && leaf.name in PayloadNames(providers[key])
  {
    assert key in g.uses;
  }

  /** The payload of an anchor's runtime provider is the renamed selection of its source. */
  lemma AnchorSource(before: map<string, Provider>, groups: seq<Group>, after: map<string, Provider>, references: seq<string>, lib: Library, m: string)
    returns (selected: seq<Proxy>)
    requires ProvidersFrom(before, after, groups, references, lib) && SourcesDeclared(before, groups, references) && m in references
    ensures RuntimeProviderName(m, lib) in after
    ensures after[RuntimeProviderName(m, lib)].payload == Some(Renamed(selected, m, lib))
    ensures SelectedNames(before, groups, m, lib) == set p | p in selected :: p.name
  {
    assert ClonedFrom(before, after, groups, m, lib);
    selected := CloneSource(before, groups, after, lib, m);
  }

  lemma CloneSource(before: map<string, Provider>, groups: seq<Group>, after: map<string, Provider>, lib: Library, m: string) returns (selected: seq<Proxy>)
    requires ClonedFrom(before, after, groups, m, lib) && forall p :: p in Find(groups, m).value.uses ==> p in before
    ensures after[RuntimeProviderName(m, lib)].payload == Some(Renamed(selected, m, lib))
    ensures SelectedNames(before, groups, m, lib) == set p | p in selected :: p.name
  {
    var a := Find(groups, m).value;
    assert a.uses[0] in a.uses;
    selected := Selected(before[a.uses[0]].payload.value, a.filter.value, lib);
  }

  /** A hardened anchor reaches the renamed selection of its source. */
  lemma AnchorLeaves(before: map<string, Provider>, groups: seq<Group>, after: map<string, Provider>, final: seq<Group>,
                     references: seq<string>, lib: Library, m: string, leaf: Leaf)
    requires UniqueNames(groups) && HardenedFrom(before, groups, after, final, references, lib) && SourcesDeclared(before, groups, references)
    requires m in references
    ensures IsLeaf(after, final, m, leaf)
            <==> leaf.Node? && exists n :: n in SelectedNames(before, groups, m, lib) && leaf.name == RuntimeName(m, n, lib)
  {
    var selected := AnchorSource(before, groups, after, references, lib, m);
    AnchorStands(before, groups, after, final, references, lib, m);
    PrefixNotTarget(m);
    ProviderOnlyLeaves(after, final, m, leaf);
    SoleProviderLeaves(after, Find(final, m).value, RuntimeProviderName(m, lib), leaf);
    if leaf.Node? {
      RenamedNames(selected, m, lib, leaf.name);
      SelectedAsNames(selected, SelectedNames(before, groups, m, lib), m, lib, leaf.name);
    }
  }

  lemma SelectedAsNames(selected: seq<Proxy>, names: set<string>, m: string, lib: Library, x: string)
    requires names == set p | p in selected :: p.name
    ensures (exists p :: p in selected && x == RuntimeName(m, p.name, lib)) <==> exists n :: n in names && x == RuntimeName(m, n, lib)
  {
    if p :| p in selected && x == RuntimeName(m, p.name, lib) { assert p.name in names; }
  }

  /** After hardening the OpenAI target reaches exactly the renamed selections of its anchors. */
  lemma HardenedLeaves(before: map<string, Provider>, groups: seq<Group>, after: map<string, Provider>, final: seq<Group>,
                       references: seq<string>, lib: Library, leaf: Leaf)
    requires UniqueNames(groups) && Find(groups, TARGET).Some? && HardenedFrom(before, groups, after, final, references, lib)
    requires SourcesDeclared(before, groups, references)
    ensures IsLeaf(after, final, TARGET, leaf)
            <==> leaf.Node? && exists m, n :: m in references && n in SelectedNames(before, groups, m, lib) && leaf.name == RuntimeName(m, n, lib)
  {
    FinalLookup(groups, references, lib, TARGET);
    ServiceLeavesNotBuiltin();
    LeafStep(after, final, TARGET, leaf);
    assert ProviderLeaves(after, HardenedTarget(references)) == {};
    forall m | m in references
      ensures IsLeaf(after, final, m, leaf) <==> leaf.Node? && exists n :: n in SelectedNames(before, groups, m, lib) && leaf.name == RuntimeName(m, n, lib)
    {
      AnchorLeaves(before, groups, after, final, references, lib, m, leaf);
    }
  }

  lemma ServiceLeavesNotBuiltin()
    ensures TARGET !in BUILTINS
  {
    assert TARGET[0] == '_' && forall b :: b in BUILTINS ==> b[0] != '_';
  }

  /** An exact filter selects exactly its names. */
  lemma ExactSelection(providers: map<string, Provider>, groups: seq<Group>, m: string, p: string, names: set<string>, lib: Library)
    requires Find(groups, m).Some? && names != {} && p in providers && names <= PayloadNames(providers[p])
    requires var a := Find(groups, m).value; a.uses == [p] && a.filter == Some(ExactFilter.Text(names).value)
    ensures SelectedNames(providers, groups, m, lib) == names
  {
    var selected := Selected(providers[p].payload.value, ExactFilter.Text(names).value, lib);
    ExactFilter.ParseText(names);
    forall x ensures x in SelectedNames(providers, groups, m, lib) <==> x in names {
      ExactFilter.FullMatchExact(names, x, ExactFilter.Python);
      if x in names {
        var q :| q in providers[p].payload.value && q.name == x;
        assert q in selected;
      }
      if x in SelectedNames(providers, groups, m, lib) {
        var q :| q in selected && q.name == x;
        ExactFilter.FullMatchExact(names, q.name, ExactFilter.Python);
      }
    }
  }

  /** An anchor as the service rewrite leaves it: one provider, an exact filter over its nodes. */
  ghost predicate ExactAnchor(providers: map<string, Provider>, groups: seq<Group>, m: string, names: set<string>) {
    && Find(groups, m).Some? && names != {}
    && var a := Find(groups, m).value;
    && |a.uses| == 1 && a.uses[0] in providers && names <= PayloadNames(providers[a.uses[0]])
    && a.proxies == [] && a.filter == Some(ExactFilter.Text(names).value)
  }

  /**
   Over exact anchors, hardening turns each node n reached through anchor m into RuntimeName(m, n) and
   adds nothing: the leaves before and after are the two images of the same pairs.
   */
  lemma HardeningRenames(before: map<string, Provider>, groups: seq<Group>, after: map<string, Provider>, final: seq<Group>,
                         lib: Library, names: map<string, set<string>>, leaf: Leaf)
    requires UniqueNames(groups) && Find(groups, TARGET).Some? && Find(groups, TARGET).value.uses == []
    requires HardenedFrom(before, groups, after, final, Find(groups, TARGET).value.proxies, lib)
    requires forall m :: m in Find(groups, TARGET).value.proxies ==> m in names && ExactAnchor(before, groups, m, names[m])
    ensures IsLeaf(before, groups, TARGET, leaf)
            <==> leaf.Node? && exists m, n :: m in Find(groups, TARGET).value.proxies && m in names && n in names[m] && leaf.name == n
    ensures IsLeaf(after, final, TARGET, leaf)
            <==> leaf.Node? && exists m, n :: m in Find(groups, TARGET).value.proxies && m in names && n in names[m] && leaf.name == RuntimeName(m, n, lib)
  {
    RenamedAfter(before, groups, after, final, Find(groups, TARGET).value.proxies, lib, names, leaf);
    ReachedBefore(before, groups, names, leaf);
  }

  lemma RenamedAfter(before: map<string, Provider>, groups: seq<Group>, after: map<string, Provider>, final: seq<Group>,
                     references: seq<string>, lib: Library, names: map<string, set<string>>, leaf: Leaf)
    requires UniqueNames(groups) && Find(groups, TARGET).Some? && HardenedFrom(before, groups, after, final, references, lib)
    requires forall m :: m in references ==> m in names && ExactAnchor(before, groups, m, names[m])
    ensures IsLeaf(after, final, TARGET, leaf)
            <==> leaf.Node? && exists m, n :: m in references && m in names && n in names[m] && leaf.name == RuntimeName(m, n, lib)
  {
    AllSelected(before, groups, references, names, lib);
    HardenedLeaves(before, groups, after, final, references, lib, leaf);
    SamePairs(before, groups, references, lib, names, leaf);
  }

  lemma AllSelected(providers: map<string, Provider>, groups: seq<Group>, references: seq<string>, names: map<string, set<string>>, lib: Library)
    requires forall m :: m in references ==> m in names && ExactAnchor(providers, groups, m, names[m])
    ensures SourcesDeclared(providers, groups, references)
    ensures forall m :: m in references ==> m in names && SelectedNames(providers, groups, m, lib) == names[m]
  {
    forall m | m in references
      ensures SelectedNames(providers, groups, m, lib) == names[m] && forall p :: p in Find(groups, m).value.uses ==> p in providers
    {
      ExactAnchorSelects(providers, groups, m, names[m], lib);
    }
  }

  lemma SamePairs(providers: map<string, Provider>, groups: seq<Group>, references: seq<string>, lib: Library, names: map<string, set<string>>, leaf: Leaf)
    requires leaf.Node? ==> forall m :: m in references ==> m in names && SelectedNames(providers, groups, m, lib) == names[m]
    ensures leaf.Node? ==>
              ((exists m, n :: m in references && n in SelectedNames(providers, groups, m, lib) && leaf.name == RuntimeName(m, n, lib))
               <==> exists m, n :: m in references && m in names && n in names[m] && leaf.name == RuntimeName(m, n, lib))
  {
    if leaf.Node? {
      if m, n :| m in references && m in names && n in names[m] && leaf.name == RuntimeName(m, n, lib) {
        assert n in SelectedNames(providers, groups, m, lib);
      }
    }
  }

  lemma ReachedBefore(providers: map<string, Provider>, groups: seq<Group>, names: map<string, set<string>>, leaf: Leaf)
    requires Find(groups, TARGET).Some? && Find(groups, TARGET).value.uses == []
    requires forall m :: m in Find(groups, TARGET).value.proxies ==> ANCHOR_PREFIX <= m && m in names && ExactAnchor(providers, groups, m, names[m])
    ensures IsLeaf(providers, groups, TARGET, leaf)
            <==> leaf.Node? && exists m, n :: m in Find(groups, TARGET).value.proxies && m in names && n in names[m] && leaf.name == n
  {
    forall m | m in Find(groups, TARGET).value.proxies
      ensures m in names && (IsLeaf(providers, groups, m, leaf) <==> leaf.Node? && leaf.name in names[m])
    {
      PrefixNotTarget(m);
      ExactAnchorLeaves(providers, groups, m, names[m], leaf);
    }
    TargetUnion(providers, groups, names, leaf);
  }

  lemma ExactAnchorSelects(providers: map<string, Provider>, groups: seq<Group>, m: string, names: set<string>, lib: Library)
    requires ExactAnchor(providers, groups, m, names)
    ensures SelectedNames(providers, groups, m, lib) == names
    ensures forall p :: p in Find(groups, m).value.uses ==> p in providers
  {
    var a := Find(groups, m).value;
    assert a.uses == [a.uses[0]];
    ExactSelection(providers, groups, m, a.uses[0], names, lib);
  }

  lemma ExactAnchorLeaves(providers: map<string, Provider>, groups: seq<Group>, m: string, names: set<string>, leaf: Leaf)
    requires ExactAnchor(providers, groups, m, names) && m !in BUILTINS
    ensures IsLeaf(providers, groups, m, leaf) <==> leaf.Node? && leaf.name in names
  {
    var a := Find(groups, m).value;
    assert a.uses == [a.uses[0]];
    ServiceLeaves.CloneLeaves(providers, groups, m, a.uses[0], names, leaf);
  }

  lemma TargetUnion(providers: map<string, Provider>, groups: seq<Group>, names: map<string, set<string>>, leaf: Leaf)
    requires Find(groups, TARGET).Some? && Find(groups, TARGET).value.uses == []
    requires forall m :: m in Find(groups, TARGET).value.proxies ==>
               m in names && (IsLeaf(providers, groups, m, leaf) <==> leaf.Node? && leaf.name in names[m])
    ensures IsLeaf(providers, groups, TARGET, leaf)
            <==> leaf.Node? && exists m, n :: m in Find(groups, TARGET).value.proxies && m in names && n in names[m] && leaf.name == n
  {
    ServiceLeavesNotBuiltin();
    LeafStep(providers, groups, TARGET, leaf);
    assert ProviderLeaves(providers, Find(groups, TARGET).value) == {};
  }

  // ----- everyone else -----

  /** Names whose references stay among themselves, away from the OpenAI target and its anchors. */
  ghost predicate Apart(before: map<string, Provider>, groups: seq<Group>, references: seq<string>, region: set<string>) {
    && TARGET !in region
    && forall x :: x in region ==>
         && x !in references
         && (Find(groups, x).Some? ==>
               && (forall m :: m in Find(groups, x).value.proxies ==> m in region || m in BUILTINS)
               && (forall p :: p in Find(groups, x).value.uses ==> p in before))
  }

  lemma FindMissing(a: seq<Group>, b: seq<Group>, name: string)
    requires |a| == |b| && (forall j :: 0 <= j < |a| ==> a[j].name == b[j].name) && Find(a, name).None?
    ensures Find(b, name).None?
  {
    assert forall j :: 0 <= j < |b| ==> a[j] in a && b[j].name != name;
  }

  lemma SameGroup(groups: seq<Group>, references: seq<string>, lib: Library, name: string)
    requires UniqueNames(groups) && name !in references && name != TARGET
    ensures Find(Replace(AnchorsReplaced(groups, references, lib), HardenedTarget(references)), name) == Find(groups, name)
  {
    var final := Replace(AnchorsReplaced(groups, references, lib), HardenedTarget(references));
    if Find(groups, name).Some? {
      var i := FindIndex(groups, name);
      FindMapped(groups, final, i);
    } else {
      FindMissing(groups, final, name);
    }
  }

  lemma Congruent(before: map<string, Provider>, groups: seq<Group>, after: map<string, Provider>, final: seq<Group>, name: string, depth: nat)
    requires depth > 0 && Find(groups, name) == Find(final, name)
    requires Find(groups, name).Some? ==>
               && ProviderLeaves(before, Find(groups, name).value) == ProviderLeaves(after, Find(groups, name).value)
               && forall m :: m in Find(groups, name).value.proxies ==>
                    LeavesWithin(before, groups, m, depth - 1) == LeavesWithin(after, final, m, depth - 1)
    ensures LeavesWithin(before, groups, name, depth) == LeavesWithin(after, final, name, depth)
  {
  }

  lemma SameProviderLeaves(before: map<string, Provider>, after: map<string, Provider>, g: Group)
    requires forall p :: p in g.uses ==> p in before && p in after && before[p] == after[p]
    ensures ProviderLeaves(before, g) == ProviderLeaves(after, g)
  {
  }

  lemma ApartStep(before: map<string, Provider>, groups: seq<Group>, after: map<string, Provider>, final: seq<Group>, name: string, depth: nat)
    requires (forall p :: p in before ==> p in after && after[p] == before[p]) && depth > 0 && Find(groups, name) == Find(final, name)
    requires Find(groups, name).Some? ==>
               && (forall p :: p in Find(groups, name).value.uses ==> p in before)
               && forall m :: m in Find(groups, name).value.proxies ==>
                    LeavesWithin(before, groups, m, depth - 1) == LeavesWithin(after, final, m, depth - 1)
    ensures LeavesWithin(before, groups, name, depth) == LeavesWithin(after, final, name, depth)
  {
    if Find(groups, name).Some? { SameProviderLeaves(before, after, Find(groups, name).value); }
    Congruent(before, groups, after, final, name, depth);
  }

  lemma {:induction false} ApartWithin(before: map<string, Provider>, groups: seq<Group>, after: map<string, Provider>, final: seq<Group>,
                                       references: seq<string>, region: set<string>, name: string, depth: nat)
    requires forall p :: p in before ==> p in after && after[p] == before[p]
    requires forall x :: x in region ==> Find(groups, x) == Find(final, x)
    requires Apart(before, groups, references, region) && (name in region || name in BUILTINS)
    ensures LeavesWithin(before, groups, name, depth) == LeavesWithin(after, final, name, depth)
    decreases depth
  {
    if name !in BUILTINS && depth > 0 {
      var g := Find(groups, name);
      if g.Some? {
        forall m | m in g.value.proxies ensures LeavesWithin(before, groups, m, depth - 1) == LeavesWithin(after, final, m, depth - 1) {
          ApartWithin(before, groups, after, final, references, region, m, depth - 1);
        }
      }
      ApartStep(before, groups, after, final, name, depth);
    }
  }

  /** Hardening leaves every group apart from the OpenAI target and its anchors with the leaves it had. */
  lemma OthersUntouched(before: map<string, Provider>, groups: seq<Group>, after: map<string, Provider>, final: seq<Group>,
                        references: seq<string>, lib: Library, region: set<string>, name: string, leaf: Leaf)
    requires UniqueNames(groups) && HardenedFrom(before, groups, after, final, references, lib)
    requires Apart(before, groups, references, region) && name in region
    ensures IsLeaf(before, groups, name, leaf) <==> IsLeaf(after, final, name, leaf)
  {
    forall x | x in region ensures Find(groups, x) == Find(final, x) { SameGroup(groups, references, lib, x); }
    forall depth: nat ensures LeavesWithin(before, groups, name, depth) == LeavesWithin(after, final, name, depth) {
      ApartWithin(before, groups, after, final, references, region, name, depth);
    }
  }
}
