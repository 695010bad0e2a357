/** What the service loop appends to the groups: the clones of the served providers, then the target. */
module ServiceBlocks {
  import opened Ordering
  import opened Results
  import opened Routing
  import opened ServiceQualification
  import opened ServiceLeaves
  import ExactFilter

  /** An anchor that can be cloned and lends its probe settings to a target. */
  predicate Cloneable(g: Group) {
    g.kind == "url-test" && (g.filter.None? || g.filter.value == "") && forall k :: k in PROBE_KEYS ==> k in g.test
  }

  ghost predicate Usable(groups: seq<Group>, served: seq<string>, plan: Plan) {
    Anchored(groups, served, plan) && forall p :: p in served ==> Cloneable(Find(groups, plan.anchors[p]).value)
  }

  ghost predicate IsCloneOf(g: Group, s: Service, p: string, digest: string -> string) {
    g.name == CloneName(s, p, digest) && g.uses == [p] && g.proxies == [] && forall k :: k in PROBE_KEYS ==> k in g.test
  }

  ghost predicate AreClones(clones: seq<Group>, s: Service, served: seq<string>, digest: string -> string) {
    |clones| == |served| && forall i :: 0 <= i < |served| ==> IsCloneOf(clones[i], s, served[i], digest)
  }

  ghost predicate IsTargetOf(g: Group, s: Service, served: seq<string>, digest: string -> string) {
    && g.name == Target(s) && g.uses == [] && (served == [] ==> g.kind == "select")
    && g.proxies == if served == [] then ["REJECT"] else Children(s, served, digest)
  }

  ghost predicate IsBlock(block: seq<Group>, s: Service, served: seq<string>, digest: string -> string) {
    |block| == |served| + 1 && AreClones(block[..|served|], s, served, digest) && IsTargetOf(block[|served|], s, served, digest)
  }

  /** Each clone filters for exactly the names of its provider. */
  ghost predicate Selective(clones: seq<Group>, served: seq<string>, names: map<string, set<string>>) {
    |served| <= |clones|
    && forall i :: 0 <= i < |served| ==>
         served[i] in names && names[served[i]] != {} && clones[i].filter == Some(ExactFilter.Text(names[served[i]]).value)
  }

  lemma AnchorFound(groups: seq<Group>, clones: seq<Group>, name: string)
    requires Find(groups, name).Some?
    ensures Find(groups + clones, name) == Find(groups, name)
  {
    FindAppend(groups, clones, name);
  }

  /** A usable anchor is cloned. */
  lemma CountryStepClones(groups: seq<Group>, now: seq<Group>, s: Service, public: string, byPublic: map<string, string>, plan: Plan)
    requires public in byPublic && byPublic[public] in plan.names && plan.names[byPublic[public]] != {}
    requires Usable(groups, [byPublic[public]], plan)
    ensures var r := CountryStep(groups + now, s, public, byPublic, plan);
            r.Ok? && exists c :: IsCloneOf(c, s, byPublic[public], plan.digest) && r.value == groups + (now + [c])
                                 && c.filter == Some(ExactFilter.Text(plan.names[byPublic[public]]).value)
  {
    var p := byPublic[public];
    assert p in [p];
    AnchorFound(groups, now, plan.anchors[p]);
    var c := CloneOf(Find(groups, plan.anchors[p]).value, CloneName(s, p, plan.digest), plan.names[p]);
    assert IsCloneOf(c, s, p, plan.digest);
    Associate(groups, now, [c]);
  }

  lemma MoreClones(clones: seq<Group>, s: Service, served: seq<string>, c: Group, p: string, digest: string -> string)
    requires AreClones(clones, s, served, digest) && IsCloneOf(c, s, p, digest)
    ensures AreClones(clones + [c], s, served + [p], digest)
  {
  }

  lemma MoreSelective(clones: seq<Group>, served: seq<string>, names: map<string, set<string>>, c: Group, p: string)
    requires Selective(clones, served, names) && |clones| == |served|
    requires p in names && names[p] != {} && c.filter == Some(ExactFilter.Text(names[p]).value)
    ensures Selective(clones + [c], served + [p], names)
  {
  }

  lemma SelectiveLonger(clones: seq<Group>, more: seq<Group>, served: seq<string>, names: map<string, set<string>>)
    requires Selective(clones, served, names)
    ensures Selective(clones + more, served, names)
  {
  }

  lemma {:induction false} ClonesAdded(groups: seq<Group>, s: Service, order: seq<string>, byPublic: map<string, string>, plan: Plan)
    returns (clones: seq<Group>)
    requires Usable(groups, Served(order, byPublic, plan.names), plan)
    ensures AreClones(clones, s, Served(order, byPublic, plan.names), plan.digest)
    ensures Selective(clones, Served(order, byPublic, plan.names), plan.names)
    ensures CloneCountries(groups, s, order, byPublic, plan) == Ok(groups + clones)
  {
    if order == [] {
      clones := [];
      assert groups + [] == groups;
    } else {
      var n := |order| - 1;
      clones := ClonesAdded(groups, s, order[..n], byPublic, plan);
      var w := order[n];
      if w in byPublic && byPublic[w] in plan.names && plan.names[byPublic[w]] != {} {
        CountryStepClones(groups, clones, s, w, byPublic, plan);
        var c :| IsCloneOf(c, s, byPublic[w], plan.digest) && CountryStep(groups + clones, s, w, byPublic, plan).value == groups + (clones + [c])
                 && c.filter == Some(ExactFilter.Text(plan.names[byPublic[w]]).value);
        MoreClones(clones, s, Served(order[..n], byPublic, plan.names), c, byPublic[w], plan.digest);
        MoreSelective(clones, Served(order[..n], byPublic, plan.names), plan.names, c, byPublic[w]);
        clones := clones + [c];
      }
    }
  }

  lemma CompleteBlock(clones: seq<Group>, target: Group, s: Service, served: seq<string>, digest: string -> string)
    requires AreClones(clones, s, served, digest) && IsTargetOf(target, s, served, digest)
    ensures IsBlock(clones + [target], s, served, digest)
  {
    assert (clones + [target])[..|served|] == clones;
  }

  /** The first clone lends its probe settings to the target. */
  lemma TargetBuilt(clones: seq<Group>, s: Service, served: seq<string>, digest: string -> string)
    requires AreClones(clones, s, served, digest)
    ensures var target := TargetGroup(s, Children(s, served, digest), if |clones| > 0 then Some(clones[0]) else None);
            target.Ok? && IsTargetOf(target.value, s, served, digest)
  {
    if |clones| > 0 { assert IsCloneOf(clones[0], s, served[0], digest); }
  }

  /** A service over usable anchors appends its block. */
  lemma BlockAdded(groups: seq<Group>, s: Service, order: seq<string>, byPublic: map<string, string>, plan: Plan) returns (block: seq<Group>)
    requires Usable(groups, Served(order, byPublic, plan.names), plan)
    ensures IsBlock(block, s, Served(order, byPublic, plan.names), plan.digest) && Selective(block, Served(order, byPublic, plan.names), plan.names)
    ensures AddService(groups, s, order, byPublic, plan) == Ok(groups + block)
  {
    var served := Served(order, byPublic, plan.names);
    var clones := ClonesAdded(groups, s, order, byPublic, plan);
    var template := if |clones| > 0 then Some((groups + clones)[|groups|]) else None;
    TargetBuilt(clones, s, served, plan.digest);
    var target := TargetGroup(s, Children(s, served, plan.digest), template).value;
    block := clones + [target];
    CompleteBlock(clones, target, s, served, plan.digest);
    SelectiveLonger(clones, [target], served, plan.names);
    Associate(groups, clones, [target]);
  }

  // ----- what a block keeps -----

  /** No group has a name the services are going to use. */
  ghost predicate NamesFree(groups: seq<Group>, services: set<Service>, ai: set<string>, digest: string -> string) {
    && (forall s :: s in services ==> Find(groups, Target(s)).None?)
    && (forall s, p :: s in services && p in ai ==> Find(groups, CloneName(s, p, digest)).None?)
  }

  predicate DigestsDiffer(ai: set<string>, digest: string -> string) { forall p, q :: p in ai && q in ai && digest(p) == digest(q) ==> p == q }

  lemma NamesApart(s: Service, p: string, t: Service, q: string, digest: string -> string)
    ensures CloneName(s, p, digest) != Target(t)
    ensures s != t ==> CloneName(s, p, digest) != CloneName(t, q, digest) && Target(s) != Target(t)
    ensures CloneName(s, p, digest) == CloneName(s, q, digest) ==> digest(p) == digest(q)
  {
    var a, b := CloneName(s, p, digest), CloneName(t, q, digest);
    assert a[8] in ['O', 'C', 'G'] && Target(t)[8] == 'S';
    assert s != t ==> a[8] != b[8];
    assert s != t ==> Target(s)[16] != Target(t)[16];
    var head := "__CR_AI_" + Token(s) + "_";
    assert CloneName(s, p, digest)[|head|..] == digest(p) && CloneName(s, q, digest)[|head|..] == digest(q);
  }

  /** The block's names are its own: distinct, and not those of another service. */
  lemma BlockNames(block: seq<Group>, s: Service, served: seq<string>, ai: set<string>, digest: string -> string)
    requires IsBlock(block, s, served, digest) && NoDuplicates(served) && (forall p :: p in served ==> p in ai) && DigestsDiffer(ai, digest)
    ensures UniqueNames(block)
    ensures forall i :: 0 <= i < |block| ==> block[i].name == Target(s) || exists p :: p in ai && block[i].name == CloneName(s, p, digest)
  {
    var n := |served|;
    assert forall i :: 0 <= i < n ==> block[i] == block[..n][i] && served[i] in served;
    forall i, j | 0 <= i < j < |block| ensures block[i].name != block[j].name {
      NamesApart(s, served[i], s, if j < n then served[j] else "", digest);
    }
  }

  lemma UniqueAppend(a: seq<Group>, b: seq<Group>)
    requires UniqueNames(a) && UniqueNames(b) && forall g :: g in b ==> Find(a, g.name).None?
    ensures UniqueNames(a + b)
  {
  }

  /** The names of the other services are still free. */
  lemma StillFree(groups: seq<Group>, block: seq<Group>, s: Service, served: seq<string>, services: set<Service>, ai: set<string>, digest: string -> string)
    requires IsBlock(block, s, served, digest) && NoDuplicates(served) && (forall p :: p in served ==> p in ai) && DigestsDiffer(ai, digest)
    requires NamesFree(groups, services, ai, digest) && s !in services
    ensures NamesFree(groups + block, services, ai, digest)
  {
    BlockNames(block, s, served, ai, digest);
    forall t | t in services ensures Find(block, Target(t)).None? && forall q :: q in ai ==> Find(block, CloneName(t, q, digest)).None? {
      forall i | 0 <= i < |block| ensures block[i].name != Target(t) && forall q :: q in ai ==> block[i].name != CloneName(t, q, digest) {
        NotOf(block[i].name, s, t, ai, digest);
      }
    }
    forall name | Find(groups, name).None? && Find(block, name).None? ensures Find(groups + block, name).None? { FindAppend(groups, block, name); }
  }

  lemma NotOf(name: string, s: Service, t: Service, ai: set<string>, digest: string -> string)
    requires s != t && (name == Target(s) || exists p :: p in ai && name == CloneName(s, p, digest))
    ensures name != Target(t) && forall q :: q in ai ==> name != CloneName(t, q, digest)
  {
    if name == Target(s) {
      NamesApart(s, "", t, "", digest);
      forall q | q in ai ensures name != CloneName(t, q, digest) { NamesApart(t, q, s, "", digest); }
    } else {
      var p :| p in ai && name == CloneName(s, p, digest);
      NamesApart(s, p, t, p, digest);
      forall q | q in ai ensures name != CloneName(t, q, digest) { NamesApart(s, p, t, q, digest); }
    }
  }

  lemma FoundIn(groups: seq<Group>, g: Group)
    requires g in groups
    ensures Find(groups, g.name).Some?
  {
  }

  lemma DefinedGrows(groups: seq<Group>, more: seq<Group>, name: string)
    requires Defined(groups, name)
    ensures Defined(groups + more, name)
  {
    FindAppend(groups, more, name);
  }

  /** A block refers to its own clones or to REJECT. */
  lemma BlockResolved(groups: seq<Group>, block: seq<Group>, s: Service, served: seq<string>, digest: string -> string)
    requires Resolved(groups) && IsBlock(block, s, served, digest)
    ensures Resolved(groups + block)
  {
    var n := |served|;
    assert forall i :: 0 <= i < n ==> block[i] == block[..n][i];
    forall g, m | g in groups + block && m in g.proxies ensures Defined(groups + block, m) {
      if g in groups {
        DefinedGrows(groups, block, m);
      } else {
        assert g == block[n];
        if served != [] {
          var i :| 0 <= i < n && Children(s, served, digest)[i] == m;
          assert IsCloneOf(block[i], s, served[i], digest);
          assert block[i] in groups + block;
          FoundIn(groups + block, block[i]);
        }
      }
    }
  }

  lemma BlockSupplied(providers: map<string, Provider>, groups: seq<Group>, block: seq<Group>, s: Service, served: seq<string>, digest: string -> string)
    requires Supplied(providers, groups) && IsBlock(block, s, served, digest) && forall p :: p in served ==> p in providers
    ensures Supplied(providers, groups + block)
  {
    var n := |served|;
    assert forall i :: 0 <= i < n ==> block[i] == block[..n][i];
    forall g, p | g in block && p in g.uses ensures p in providers {
      var i :| 0 <= i < |block| && block[i] == g;
      if i < n { assert IsCloneOf(block[i], s, served[i], digest) && served[i] in served; }
    }
  }
}
