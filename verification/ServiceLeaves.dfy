/** What a service target reaches once its clones are in place. */
module ServiceLeaves {
  import opened Results
  import opened Routing
  import opened ServiceQualification
  import ExactFilter

  /** The leaves a service should reach: the nodes that passed its probe, or REJECT. */
  ghost function Expected(qualified: set<string>): set<Leaf> {
    if qualified == {} then {Builtin("REJECT")} else set x | x in qualified :: Node(x)
  }

  ghost predicate LeavesAsQualified(providers: map<string, Provider>, groups: seq<Group>, qualified: map<Service, set<string>>) {
    forall s, leaf :: s in qualified ==> (IsLeaf(providers, groups, Target(s), leaf) <==> leaf in Expected(qualified[s]))
  }

  lemma NotBuiltin(s: Service, p: string, digest: string -> string)
    ensures Target(s) !in BUILTINS && CloneName(s, p, digest) !in BUILTINS && "REJECT" in BUILTINS
  {
    assert Target(s)[0] == '_' && CloneName(s, p, digest)[0] == '_';
    assert forall b :: b in BUILTINS ==> b[0] != '_';
  }

  /** A clone offers exactly its names. */
  lemma CloneLeaves(providers: map<string, Provider>, groups: seq<Group>, name: string, p: string, names: set<string>, leaf: Leaf)
    requires name !in BUILTINS && Find(groups, name).Some?
    requires var c := Find(groups, name).value;
             c.uses == [p] && c.proxies == [] && names != {} && c.filter == Some(ExactFilter.Text(names).value)
    requires p in providers && names <= PayloadNames(providers[p])
    ensures IsLeaf(providers, groups, name, leaf) <==> leaf.Node? && leaf.name in names
  {
    var c := Find(groups, name).value;
    ProviderOnlyLeaves(providers, groups, name, leaf);
    ExactFilter.SearchExact(names, leaf.name);
    TextNotEmpty(names);
    assert p in c.uses;
    assert leaf in ProviderLeaves(providers, c) <==> leaf.Node? && leaf.name in PayloadNames(providers[p]) && Admits(c.filter, leaf.name);
  }

  lemma TextNotEmpty(names: set<string>)
    requires names != {}
    ensures ExactFilter.Text(names).value != ""
  {
  }

  /** A group without providers reaches the union of what its members reach. */
  lemma UnionOfMembers(providers: map<string, Provider>, groups: seq<Group>, name: string, served: seq<string>, names: map<string, set<string>>, leaf: Leaf)
    requires name !in BUILTINS && Find(groups, name).Some?
    requires forall p :: p in served ==> p in names
    requires var t := Find(groups, name).value;
             && t.uses == [] && |t.proxies| == |served|
             && forall i :: 0 <= i < |served| ==> (IsLeaf(providers, groups, t.proxies[i], leaf) <==> leaf.Node? && leaf.name in names[served[i]])
    ensures IsLeaf(providers, groups, name, leaf) <==> leaf.Node? && exists p :: p in served && leaf.name in names[p]
  {
    var t := Find(groups, name).value;
    LeafStep(providers, groups, name, leaf);
    assert ProviderLeaves(providers, t) == {};
    if leaf.Node? {
      if p :| p in served && leaf.name in names[p] {
        var i :| 0 <= i < |served| && served[i] == p;
        assert t.proxies[i] in t.proxies;
      }
    }
  }

  lemma RejectLeaves(providers: map<string, Provider>, groups: seq<Group>, name: string, leaf: Leaf)
    requires name !in BUILTINS && Find(groups, name).Some?
    requires Find(groups, name).value.uses == [] && Find(groups, name).value.proxies == ["REJECT"]
    ensures IsLeaf(providers, groups, name, leaf) <==> leaf == Builtin("REJECT")
  {
    var t := Find(groups, name).value;
    LeafStep(providers, groups, name, leaf);
    assert ProviderLeaves(providers, t) == {};
    assert "REJECT" in t.proxies && "REJECT" in BUILTINS;
    BuiltinLeaf(providers, groups, "REJECT", leaf);
  }

  /** A service target reaches the union of its clones' names, or REJECT when nothing is served. */
  lemma TargetLeaves(providers: map<string, Provider>, groups: seq<Group>, s: Service, served: seq<string>, names: map<string, set<string>>,
                     digest: string -> string, qualified: set<string>, leaf: Leaf)
    requires Find(groups, Target(s)).Some?
    requires var t := Find(groups, Target(s)).value; t.uses == [] && t.proxies == if served == [] then ["REJECT"] else Children(s, served, digest)
    requires forall p :: p in served ==>
               && p in names && names[p] != {} && p in providers && names[p] <= PayloadNames(providers[p])
               && CloneIn(groups, s, p, names[p], digest)
    requires forall x :: x in qualified <==> exists p :: p in served && x in names[p]
    ensures IsLeaf(providers, groups, Target(s), leaf) <==> leaf in Expected(qualified)
  {
    NotBuiltin(s, "", digest);
    if served == [] {
      RejectLeaves(providers, groups, Target(s), leaf);
    } else {
      forall i | 0 <= i < |served|
        ensures IsLeaf(providers, groups, CloneName(s, served[i], digest), leaf) <==> leaf.Node? && leaf.name in names[served[i]]
      {
        var p := served[i];
        assert p in served;
        NotBuiltin(s, p, digest);
        CloneLeaves(providers, groups, CloneName(s, p, digest), p, names[p], leaf);
      }
      UnionOfMembers(providers, groups, Target(s), served, names, leaf);
      SomeQualified(served, names, qualified);
    }
  }

  lemma SomeQualified(served: seq<string>, names: map<string, set<string>>, qualified: set<string>)
    requires served != [] && forall p :: p in served ==> p in names && names[p] != {}
    requires forall x :: x in qualified <==> exists p :: p in served && x in names[p]
    ensures qualified != {}
  {
    assert served[0] in served;
    var x :| x in names[served[0]];
    assert x in qualified;
  }

  /** The clone of provider `p` for service `s`, as it stands in the list. */
  ghost predicate CloneIn(groups: seq<Group>, s: Service, p: string, names: set<string>, digest: string -> string)
    requires names != {}
  {
    var c := Find(groups, CloneName(s, p, digest));
    c.Some? && c.value.hidden && c.value.uses == [p] && c.value.proxies == [] && c.value.filter == Some(ExactFilter.Text(names).value)
  }

  // ----- what the service loop puts in the list -----

  /** Every served provider has a usable anchor in the list the loop starts from. */
  ghost predicate Anchored(groups: seq<Group>, served: seq<string>, plan: Plan) {
    forall p :: p in served ==>
      && p in plan.anchors && Find(groups, plan.anchors[p]).Some?
      && Find(groups, plan.anchors[p]).value.uses == [p] && Find(groups, plan.anchors[p]).value.proxies == []
  }

  ghost predicate IsClone(g: Group, s: Service, p: string, plan: Plan)
    requires p in plan.names && plan.names[p] != {}
  {
    && g.name == CloneName(s, p, plan.digest) && g.hidden && g.uses == [p] && g.proxies == []
    && g.filter == Some(ExactFilter.Text(plan.names[p]).value)
  }

  ghost predicate HasClone(groups: seq<Group>, s: Service, p: string, plan: Plan)
    requires p in plan.names && plan.names[p] != {}
  {
    exists g :: g in groups && IsClone(g, s, p, plan)
  }

  lemma FindPrefix(a: seq<Group>, b: seq<Group>, name: string)
    requires a <= b && Find(a, name).Some?
    ensures Find(b, name) == Find(a, name)
  {
    FindAppend(a, b[|a|..], name);
    assert b == a + b[|a|..];
  }

  lemma {:induction false} ClonesInPlace(groups: seq<Group>, s: Service, order: seq<string>, byPublic: map<string, string>, plan: Plan)
    requires Anchored(groups, Served(order, byPublic, plan.names), plan) && CloneCountries(groups, s, order, byPublic, plan).Ok?
    ensures groups <= CloneCountries(groups, s, order, byPublic, plan).value
    ensures forall p :: p in Served(order, byPublic, plan.names) ==> HasClone(CloneCountries(groups, s, order, byPublic, plan).value, s, p, plan)
  {
    if order != [] {
      var n := |order| - 1;
      var init := order[..n];
      ClonesInPlace(groups, s, init, byPublic, plan);
      var before, after := CloneCountries(groups, s, init, byPublic, plan).value, CloneCountries(groups, s, order, byPublic, plan).value;
      CountryAdds(before, s, order, n, byPublic, plan);
      assert order[..n + 1] == order;
      forall p | p in Served(order, byPublic, plan.names) ensures HasClone(after, s, p, plan) {
        if p in Served(init, byPublic, plan.names) {
          var g :| g in before && IsClone(g, s, p, plan);
          assert g in after;
        } else {
          FindPrefix(groups, before, plan.anchors[p]);
          assert IsClone(after[|before|], s, p, plan);
        }
      }
    }
  }

  ghost predicate IsTarget(g: Group, s: Service, served: seq<string>, plan: Plan) {
    g.name == Target(s) && g.uses == [] && g.proxies == if served == [] then ["REJECT"] else Children(s, served, plan.digest)
  }

  lemma ServiceInPlace(groups: seq<Group>, s: Service, order: seq<string>, byPublic: map<string, string>, plan: Plan)
    requires Anchored(groups, Served(order, byPublic, plan.names), plan) && AddService(groups, s, order, byPublic, plan).Ok?
    ensures var out, served := AddService(groups, s, order, byPublic, plan).value, Served(order, byPublic, plan.names);
            && groups <= out
            && (exists g :: g in out && IsTarget(g, s, served, plan))
            && (forall p :: p in served ==> HasClone(out, s, p, plan))
  {
    ClonesInPlace(groups, s, order, byPublic, plan);
    var cloned, out, served := CloneCountries(groups, s, order, byPublic, plan).value, AddService(groups, s, order, byPublic, plan).value,
      Served(order, byPublic, plan.names);
    var last := out[|cloned|];
    assert last in out && IsTarget(last, s, served, plan);
    forall p | p in served ensures HasClone(out, s, p, plan) {
      var g :| g in cloned && IsClone(g, s, p, plan);
      assert g in out;
    }
  }
}
