/** The static estimate of a group's leaves: nested groups expanded along every path, filters ignored. */
module GroupSize {
  import opened Results
  import opened Ordering

  const BUILTINS: set<string> := {"DIRECT", "REJECT", "REJECT-DROP", "PASS", "COMPATIBLE"}

  /** `allProviders` and `allProxies` stand for the include-all switches. */
  datatype Spec = Spec(uses: seq<string>, children: seq<string>, allProviders: bool, allProxies: bool)

  /** A provider maps to the length of its payload, `None` when that is no list. */
  datatype Document = Document(providers: map<string, Option<nat>>, groups: map<string, Spec>, proxies: set<string>)

  datatype Size = Size(count: nat, incomplete: bool)

  function Plus(a: Size, b: Size): Size { Size(a.count + b.count, a.incomplete || b.incomplete) }

  function ProviderSize(d: Document, name: string): Size {
    if name !in d.providers || d.providers[name].None? then Size(0, true) else Size(d.providers[name].value, false)
  }

  function ProviderSizes(d: Document, names: seq<string>): Size {
    if names == [] then Size(0, false) else Plus(ProviderSizes(d, names[..|names| - 1]), ProviderSize(d, names[|names| - 1]))
  }

  /** A name the expansion goes into. */
  predicate Opens(d: Document, name: string) { name !in BUILTINS && name !in d.proxies && name in d.groups }

  /** What the include-all switches take in. */
  function AnyNames(d: Document, g: Spec): seq<string> { if g.allProviders then Sorted(d.providers.Keys) else [] }

  function AnyCount(d: Document, g: Spec): nat { if g.allProxies then |d.proxies| else 0 }

  function Used(d: Document, g: Spec): seq<string> { g.uses + AnyNames(d, g) }

  /** Terminates on every document: `seen` grows inside the finite set of groups. */
  function SizeOf(d: Document, name: string, seen: set<string>): Size
    decreases |d.groups.Keys - seen|, 0
  {
    if name in BUILTINS then Size(0, false)
    else if name in d.proxies then Size(1, false)
    else if name in seen || name !in d.groups then Size(0, true)
    else
      var g := d.groups[name];
      assert d.groups.Keys - (seen + {name}) < d.groups.Keys - seen by { assert name in d.groups.Keys - seen; }
      Smaller(d.groups.Keys - (seen + {name}), d.groups.Keys - seen);
      Plus(Plus(ProviderSizes(d, g.uses), ChildSizes(d, g.children, seen + {name})),
           Plus(ProviderSizes(d, AnyNames(d, g)), Size(AnyCount(d, g), false)))
  }

  lemma Smaller(a: set<string>, b: set<string>)
    requires a < b
    ensures |a| < |b|
  {
    assert b == a + (b - a) && b - a != {};
  }

  function ChildSizes(d: Document, children: seq<string>, seen: set<string>): Size
    decreases |d.groups.Keys - seen|, |children| + 1
  {
    if children == [] then Size(0, false)
    else Plus(ChildSizes(d, children[..|children| - 1], seen), SizeOf(d, children[|children| - 1], seen))
  }

  // ----- when the estimate is complete -----

  /** Names visited by opening groups one after the other. */
  ghost predicate IsWalk(d: Document, w: seq<string>) {
    w != [] && forall i :: 0 <= i < |w| - 1 ==> Opens(d, w[i]) && w[i + 1] in d.groups[w[i]].children
  }

  ghost predicate Lists(d: Document, names: seq<string>) { forall n :: n in names ==> n in d.providers && d.providers[n].Some? }

  /** The name stands for something, and the providers it draws on have list payloads. */
  ghost predicate Present(d: Document, name: string) {
    name in BUILTINS || name in d.proxies || (name in d.groups && Lists(d, Used(d, d.groups[name])))
  }

  /** The walk meets no group twice, none of `seen`, and ends at something present. */
  ghost predicate Good(d: Document, seen: set<string>, w: seq<string>)
    requires w != []
  {
    NoDuplicates(w) && (forall x :: x in w && Opens(d, x) ==> x !in seen) && Present(d, w[|w| - 1])
  }

  ghost predicate AllGood(d: Document, name: string, seen: set<string>) {
    forall w :: IsWalk(d, w) && w[0] == name ==> Good(d, seen, w)
  }

  lemma ListsSplit(d: Document, names: seq<string>)
    requires names != []
    ensures var k := |names| - 1;
            Lists(d, names) <==> Lists(d, names[..k]) && !ProviderSize(d, names[k]).incomplete
  {
    var k := |names| - 1;
    assert names == names[..k] + [names[k]];
    assert forall x :: x in names <==> x in names[..k] || x == names[k];
  }

  lemma {:induction false} SizesComplete(d: Document, names: seq<string>)
    ensures !ProviderSizes(d, names).incomplete <==> Lists(d, names)
    decreases |names|
  {
    if names != [] {
      SizesComplete(d, names[..|names| - 1]);
      ListsSplit(d, names);
      ProviderSizesSplit(d, names);
    }
  }

  lemma ProviderSizesSplit(d: Document, names: seq<string>)
    requires names != []
    ensures var k := |names| - 1;
            ProviderSizes(d, names).incomplete <==> ProviderSizes(d, names[..k]).incomplete || ProviderSize(d, names[k]).incomplete
  {
  }

  lemma UsedComplete(d: Document, g: Spec)
    ensures Lists(d, Used(d, g)) <==> !ProviderSizes(d, g.uses).incomplete && !ProviderSizes(d, AnyNames(d, g)).incomplete
  {
    SizesComplete(d, g.uses);
    SizesComplete(d, AnyNames(d, g));
    assert forall n :: n in Used(d, g) <==> n in g.uses || n in AnyNames(d, g);
  }

  /** Walks from a group are the group itself and the walks from its children, one step longer. */
  lemma WalkTail(d: Document, w: seq<string>)
    requires IsWalk(d, w) && |w| > 1
    ensures IsWalk(d, w[1..]) && Opens(d, w[0]) && w[1] in d.groups[w[0]].children
  {
    forall i | 0 <= i < |w[1..]| - 1 ensures Opens(d, w[1..][i]) && w[1..][i + 1] in d.groups[w[1..][i]].children {
      assert Opens(d, w[i + 1]);
    }
  }

  lemma WalkAhead(d: Document, name: string, w: seq<string>)
    requires IsWalk(d, w) && Opens(d, name) && w[0] in d.groups[name].children
    ensures IsWalk(d, [name] + w)
  {
    var longer := [name] + w;
    forall i | 0 <= i < |longer| - 1 ensures Opens(d, longer[i]) && longer[i + 1] in d.groups[longer[i]].children {
      if i > 0 { assert longer[i] == w[i - 1] && longer[i + 1] == w[i]; }
    }
  }

  /** A group is good exactly when its providers are lists, it is new, and its children are good beyond it. */
  lemma GroupGood(d: Document, name: string, seen: set<string>)
    requires Opens(d, name)
    ensures AllGood(d, name, seen) <==>
            name !in seen && Lists(d, Used(d, d.groups[name])) && forall c :: c in d.groups[name].children ==> AllGood(d, c, seen + {name})
  {
    var g := d.groups[name];
    if AllGood(d, name, seen) {
      assert IsWalk(d, [name]) && [name][0] == name;
      assert Good(d, seen, [name]);
      assert name in [name];
      forall c, w | c in g.children && IsWalk(d, w) && w[0] == c ensures Good(d, seen + {name}, w) {
        WalkAhead(d, name, w);
        GoodTail(d, name, seen, w);
      }
    }
    if name !in seen && Lists(d, Used(d, g)) && forall c :: c in g.children ==> AllGood(d, c, seen + {name}) {
      forall w | IsWalk(d, w) && w[0] == name ensures Good(d, seen, w) {
        if |w| == 1 {
          assert w == [name];
        } else {
          WalkTail(d, w);
          assert Good(d, seen + {name}, w[1..]);
          GoodAhead(d, name, seen, w[1..]);
          assert w == [name] + w[1..];
        }
      }
    }
  }

  lemma GoodTail(d: Document, name: string, seen: set<string>, w: seq<string>)
    requires w != [] && Good(d, seen, [name] + w)
    ensures Good(d, seen + {name}, w)
  {
    var longer := [name] + w;
    forall i, j | 0 <= i < j < |w| ensures w[i] != w[j] { assert longer[i + 1] == w[i] && longer[j + 1] == w[j]; }
    forall x | x in w && Opens(d, x) ensures x !in seen + {name} {
      var i :| 0 <= i < |w| && w[i] == x;
      assert longer[i + 1] == x && longer[0] == name;
      assert x in longer;
    }
    assert longer[|longer| - 1] == w[|w| - 1];
  }

  lemma GoodAhead(d: Document, name: string, seen: set<string>, w: seq<string>)
    requires w != [] && Good(d, seen + {name}, w) && name !in seen && Opens(d, name)
    ensures Good(d, seen, [name] + w)
  {
    var longer := [name] + w;
    assert name !in w;
    forall i, j | 0 <= i < j < |longer| ensures longer[i] != longer[j] {
      assert longer[j] == w[j - 1];
      if i > 0 { assert longer[i] == w[i - 1]; } else { assert w[j - 1] in w; }
    }
    assert longer[|longer| - 1] == w[|w| - 1];
  }

  /** The estimate is complete exactly when everything reached exists, has list payloads and lies on no cycle. */
  lemma {:induction false} CompleteExactly(d: Document, name: string, seen: set<string>)
    ensures !SizeOf(d, name, seen).incomplete <==> AllGood(d, name, seen)
    decreases |d.groups.Keys - seen|, 0
  {
    if !Opens(d, name) {
      ClosedGood(d, name, seen);
    } else {
      GroupGood(d, name, seen);
      var g := d.groups[name];
      if name !in seen {
        assert name in d.groups.Keys - seen;
        Smaller(d.groups.Keys - (seen + {name}), d.groups.Keys - seen);
        UsedComplete(d, g);
        ChildrenComplete(d, g.children, seen + {name});
      }
    }
  }

  lemma ClosedGood(d: Document, name: string, seen: set<string>)
    requires !Opens(d, name)
    ensures AllGood(d, name, seen) <==> name in BUILTINS || name in d.proxies
  {
    assert IsWalk(d, [name]) && [name][0] == name;
    forall w | IsWalk(d, w) && w[0] == name ensures w == [name] { if |w| > 1 { WalkTail(d, w); } }
  }

  lemma {:induction false} ChildrenComplete(d: Document, children: seq<string>, seen: set<string>)
    ensures !ChildSizes(d, children, seen).incomplete <==> forall c :: c in children ==> AllGood(d, c, seen)
    decreases |d.groups.Keys - seen|, |children| + 1
  {
    if children != [] {
      var k := |children| - 1;
      assert children == children[..k] + [children[k]];
      ChildrenComplete(d, children[..k], seen);
      CompleteExactly(d, children[k], seen);
    }
  }

  // ----- what an estimate counts -----

  /** One choice on the way down: the `j`-th node of a used provider, a child, or a node taken by an include-all switch. */
  datatype Step = Use(i: nat, j: nat) | Child(i: nat) | AnyProvider(i: nat, j: nat) | AnyProxy(i: nat)

  type Path = seq<Step>

  predicate InProvider(d: Document, names: seq<string>, i: nat, j: nat) {
    i < |names| && names[i] in d.providers && d.providers[names[i]].Some? && j < d.providers[names[i]].value
  }

  /** The choices lead from `name` to a node and open no group twice, nor one that is open already. */
  predicate IsLeafPath(d: Document, name: string, seen: set<string>, p: Path)
    decreases |p|
  {
    if name in {"DIRECT", "REJECT", "REJECT-DROP", "PASS", "COMPATIBLE"} then false
    else if name in d.proxies then p == []
    else if name in seen || name !in d.groups || p == [] then false
    else
      var g := d.groups[name];
      match p[0]
      case Use(i, j) => |p| == 1 && InProvider(d, g.uses, i, j)
      case Child(i) => i < |g.children| && IsLeafPath(d, g.children[i], seen + {name}, p[1..])
      case AnyProvider(i, j) => |p| == 1 && InProvider(d, AnyNames(d, g), i, j)
      case AnyProxy(i) => |p| == 1 && g.allProxies && i < |d.proxies|
  }

  /** The choices lead from `name` to a node, whatever they open on the way. */
  predicate LeadsToNode(d: Document, name: string, p: Path)
    decreases |p|
  {
    if name in BUILTINS then false
    else if name in d.proxies then p == []
    else if name !in d.groups || p == [] then false
    else
      var g := d.groups[name];
      match p[0]
      case Use(i, j) => |p| == 1 && InProvider(d, g.uses, i, j)
      case Child(i) => i < |g.children| && LeadsToNode(d, g.children[i], p[1..])
      case AnyProvider(i, j) => |p| == 1 && InProvider(d, AnyNames(d, g), i, j)
      case AnyProxy(i) => |p| == 1 && g.allProxies && i < |d.proxies|
  }

  /** `paths` lists the paths that satisfy `q`, each once. */
  ghost predicate Enumerates(paths: seq<Path>, q: Path -> bool) { NoDuplicates(paths) && forall p :: p in paths <==> q(p) }

  ghost function Either(q: Path -> bool, r: Path -> bool): Path -> bool { (p: Path) => q(p) || r(p) }

  lemma JoinEnumerations(a: seq<Path>, q: Path -> bool, b: seq<Path>, r: Path -> bool)
    requires Enumerates(a, q) && Enumerates(b, r) && forall p :: !(q(p) && r(p))
    ensures Enumerates(a + b, Either(q, r))
  {
    var all := a + b;
    forall i, j | 0 <= i < j < |all| ensures all[i] != all[j] {
      if i < |a| && j >= |a| { assert a[i] in a && b[j - |a|] in b; }
    }
  }

  ghost function InSlots(n: nat, head: nat -> Step): Path -> bool { (p: Path) => |p| == 1 && exists j: nat :: j < n && p[0] == head(j) }

  lemma Slots(n: nat, head: nat -> Step) returns (paths: seq<Path>)
    requires forall i, j :: head(i) == head(j) ==> i == j
    ensures |paths| == n && Enumerates(paths, InSlots(n, head))
  {
    paths := seq(n, j requires 0 <= j < n => [head(j)]);
    forall p ensures p in paths <==> InSlots(n, head)(p) {
      if InSlots(n, head)(p) {
        var j: nat :| j < n && p[0] == head(j);
        assert paths[j] == p;
      }
    }
    forall i, j | 0 <= i < j < |paths| ensures paths[i] != paths[j] { assert paths[i][0] == head(i) && paths[j][0] == head(j); }
  }

  lemma SameEnumeration(paths: seq<Path>, q: Path -> bool, r: Path -> bool)
    requires Enumerates(paths, q) && forall p :: q(p) <==> r(p)
    ensures Enumerates(paths, r)
  {
  }

  ghost function InOne(d: Document, names: seq<string>, head: (nat, nat) -> Step): Path -> bool {
    (p: Path) => |p| == 1 && exists i: nat, j: nat :: InProvider(d, names, i, j) && p[0] == head(i, j)
  }

  function HeadAt(head: (nat, nat) -> Step, k: nat): nat -> Step { (j: nat) => head(k, j) }

  ghost function InLast(d: Document, names: seq<string>, head: (nat, nat) -> Step): Path -> bool
    requires names != []
  {
    InSlots(ProviderSize(d, names[|names| - 1]).count, HeadAt(head, |names| - 1))
  }

  ghost predicate Injective(head: (nat, nat) -> Step) { forall i, j, k, l :: head(i, j) == head(k, l) ==> i == k && j == l }

  /** The paths into the providers of a list are as many as their payloads together. */
  lemma {:induction false} ProviderPaths(d: Document, names: seq<string>, head: (nat, nat) -> Step) returns (paths: seq<Path>)
    requires Injective(head)
    ensures |paths| == ProviderSizes(d, names).count && Enumerates(paths, InOne(d, names, head))
  {
    if names == [] {
      paths := [];
    } else {
      var k: nat := |names| - 1;
      var init := ProviderPaths(d, names[..k], head);
      var last := Slots(ProviderSize(d, names[k]).count, HeadAt(head, k));
      OneOrLast(d, names, head);
      JoinEnumerations(init, InOne(d, names[..k], head), last, InLast(d, names, head));
      paths := init + last;
      SameEnumeration(paths, Either(InOne(d, names[..k], head), InLast(d, names, head)), InOne(d, names, head));
    }
  }

  lemma OneOrLast(d: Document, names: seq<string>, head: (nat, nat) -> Step)
    requires names != [] && Injective(head)
    ensures var k := |names| - 1;
            forall p :: (InOne(d, names, head)(p) <==> InOne(d, names[..k], head)(p) || InLast(d, names, head)(p))
                        && !(InOne(d, names[..k], head)(p) && InLast(d, names, head)(p))
  {
    var k: nat := |names| - 1;
    forall p
      ensures InOne(d, names, head)(p) <==> InOne(d, names[..k], head)(p) || InLast(d, names, head)(p)
      ensures !(InOne(d, names[..k], head)(p) && InLast(d, names, head)(p))
    {
      if InOne(d, names, head)(p) {
        var i: nat, j: nat :| InProvider(d, names, i, j) && p[0] == head(i, j);
        if i < k { assert InProvider(d, names[..k], i, j); } else { assert p[0] == HeadAt(head, k)(j); }
      }
      if InOne(d, names[..k], head)(p) {
        var i: nat, j: nat :| InProvider(d, names[..k], i, j) && p[0] == head(i, j);
        assert InProvider(d, names, i, j);
      }
      if InLast(d, names, head)(p) {
        var j: nat :| j < ProviderSize(d, names[k]).count && p[0] == HeadAt(head, k)(j);
        assert p[0] == head(k, j);
        assert InProvider(d, names, k, j);
      }
    }
  }

  ghost function Under(d: Document, children: seq<string>, seen: set<string>): Path -> bool {
    (p: Path) => p != [] && p[0].Child? && p[0].i < |children| && IsLeafPath(d, children[p[0].i], seen, p[1..])
  }

  ghost function At(d: Document, name: string, seen: set<string>): Path -> bool { (p: Path) => IsLeafPath(d, name, seen, p) }

  ghost function Ahead(step: Step, q: Path -> bool): Path -> bool { (p: Path) => p != [] && p[0] == step && q(p[1..]) }

  /** Paths with one more step in front. */
  lemma PrependAll(paths: seq<Path>, q: Path -> bool, step: Step) returns (longer: seq<Path>)
    requires Enumerates(paths, q)
    ensures |longer| == |paths| && Enumerates(longer, Ahead(step, q))
  {
    longer := seq(|paths|, i requires 0 <= i < |paths| => [step] + paths[i]);
    forall p ensures p in longer <==> Ahead(step, q)(p) {
      if p in longer {
        var i :| 0 <= i < |paths| && longer[i] == p;
        assert p[1..] == paths[i];
      }
      if Ahead(step, q)(p) {
        assert p[1..] in paths;
        var i :| 0 <= i < |paths| && paths[i] == p[1..];
        assert longer[i] == [step] + p[1..] == p;
      }
    }
    forall i, j | 0 <= i < j < |longer| ensures longer[i] != longer[j] { assert longer[i][1..] == paths[i] && longer[j][1..] == paths[j]; }
  }

  lemma {:induction false} ChildPaths(d: Document, children: seq<string>, seen: set<string>) returns (paths: seq<Path>)
    ensures |paths| == ChildSizes(d, children, seen).count && Enumerates(paths, Under(d, children, seen))
    decreases |d.groups.Keys - seen|, |children| + 2
  {
    if children == [] {
      paths := [];
    } else {
      var k := |children| - 1;
      var init := ChildPaths(d, children[..k], seen);
      var below := CountsPaths(d, children[k], seen);
      var last := PrependAll(below, At(d, children[k], seen), Child(k));
      JoinEnumerations(init, Under(d, children[..k], seen), last, Ahead(Child(k), At(d, children[k], seen)));
      paths := init + last;
      SameEnumeration(paths, Either(Under(d, children[..k], seen), Ahead(Child(k), At(d, children[k], seen))), Under(d, children, seen));
    }
  }

  function UseHead(i: nat, j: nat): Step { Use(i, j) }

  function AnyHead(i: nat, j: nat): Step { AnyProvider(i, j) }

  function ProxyHead(i: nat): Step { AnyProxy(i) }

  /** The estimate is the number of ways down to a node that open no group twice, complete or not. */
  lemma {:induction false} CountsPaths(d: Document, name: string, seen: set<string>) returns (paths: seq<Path>)
    ensures |paths| == SizeOf(d, name, seen).count && Enumerates(paths, At(d, name, seen))
    decreases |d.groups.Keys - seen|, 1
  {
    if Opens(d, name) && name !in seen { paths := CountsOpen(d, name, seen); } else { paths := ClosedPaths(d, name, seen); }
  }

  lemma {:induction false} CountsOpen(d: Document, name: string, seen: set<string>) returns (paths: seq<Path>)
    requires Opens(d, name) && name !in seen
    ensures |paths| == SizeOf(d, name, seen).count && Enumerates(paths, At(d, name, seen))
    decreases |d.groups.Keys - seen|, 0
  {
    SeenGrows(d, name, seen);
    var children := ChildPaths(d, d.groups[name].children, seen + {name});
    paths := OpenPaths(d, name, seen, children);
  }

  lemma HeadsInjective()
    ensures Injective(UseHead) && Injective(AnyHead) && forall i, j :: ProxyHead(i) == ProxyHead(j) ==> i == j
  {
  }

  lemma OpenPaths(d: Document, name: string, seen: set<string>, children: seq<Path>) returns (paths: seq<Path>)
    requires Opens(d, name) && name !in seen && Enumerates(children, Under(d, d.groups[name].children, seen + {name}))
    requires |children| == ChildSizes(d, d.groups[name].children, seen + {name}).count
    ensures |paths| == SizeOf(d, name, seen).count && Enumerates(paths, At(d, name, seen))
  {
    paths := PartPaths(d, name, seen, children);
    SizeUnfolds(d, name, seen);
  }

  lemma PartPaths(d: Document, name: string, seen: set<string>, children: seq<Path>) returns (paths: seq<Path>)
    requires Opens(d, name) && name !in seen && Enumerates(children, Under(d, d.groups[name].children, seen + {name}))
    ensures Enumerates(paths, At(d, name, seen))
    ensures var g := d.groups[name];
            |paths| == ProviderSizes(d, g.uses).count + |children| + ProviderSizes(d, AnyNames(d, g)).count + AnyCount(d, g)
  {
    var g := d.groups[name];
    HeadsInjective();
    var uses := ProviderPaths(d, g.uses, UseHead);
    var providers := ProviderPaths(d, AnyNames(d, g), AnyHead);
    var proxies := Slots(AnyCount(d, g), ProxyHead);
    paths := GroupPaths(d, g, seen + {name}, uses, children, providers, proxies);
    WholeGroup(d, name, seen, paths);
  }

  lemma SeenGrows(d: Document, name: string, seen: set<string>)
    requires Opens(d, name) && name !in seen
    ensures |d.groups.Keys - (seen + {name})| < |d.groups.Keys - seen|
  {
    assert name in d.groups.Keys - seen;
    Smaller(d.groups.Keys - (seen + {name}), d.groups.Keys - seen);
  }

  lemma SizeUnfolds(d: Document, name: string, seen: set<string>)
    requires Opens(d, name) && name !in seen
    ensures var g := d.groups[name];
            SizeOf(d, name, seen).count == ProviderSizes(d, g.uses).count + ChildSizes(d, g.children, seen + {name}).count
                                           + ProviderSizes(d, AnyNames(d, g)).count + AnyCount(d, g)
  {
  }

  lemma WholeGroup(d: Document, name: string, seen: set<string>, paths: seq<Path>)
    requires Opens(d, name) && name !in seen && Enumerates(paths, Either(Drawn(d, d.groups[name], seen + {name}), Taken(d, d.groups[name])))
    ensures Enumerates(paths, At(d, name, seen))
  {
    var g := d.groups[name];
    forall p ensures At(d, name, seen)(p) <==> Either(Drawn(d, g, seen + {name}), Taken(d, g))(p) { GroupPathKinds(d, name, seen, p); }
  }

  lemma ClosedPaths(d: Document, name: string, seen: set<string>) returns (paths: seq<Path>)
    requires !Opens(d, name) || name in seen
    ensures |paths| == SizeOf(d, name, seen).count && Enumerates(paths, At(d, name, seen))
  {
    paths := if name !in BUILTINS && name in d.proxies then [[]] else [];
  }

  ghost function Drawn(d: Document, g: Spec, seen: set<string>): Path -> bool { Either(InOne(d, g.uses, UseHead), Under(d, g.children, seen)) }

  ghost function Taken(d: Document, g: Spec): Path -> bool { Either(InOne(d, AnyNames(d, g), AnyHead), InSlots(AnyCount(d, g), ProxyHead)) }

  /** The four kinds of first step exclude each other. */
  lemma KindsApart(d: Document, g: Spec, seen: set<string>)
    ensures forall p :: !(InOne(d, g.uses, UseHead)(p) && Under(d, g.children, seen)(p))
    ensures forall p :: !(InOne(d, AnyNames(d, g), AnyHead)(p) && InSlots(AnyCount(d, g), ProxyHead)(p))
    ensures forall p :: !(Drawn(d, g, seen)(p) && Taken(d, g)(p))
  {
    forall p: Path | InOne(d, g.uses, UseHead)(p) ensures p[0].Use? {}
    forall p: Path | InOne(d, AnyNames(d, g), AnyHead)(p) ensures p[0].AnyProvider? {}
    forall p: Path | InSlots(AnyCount(d, g), ProxyHead)(p) ensures p[0].AnyProxy? {}
  }

  lemma GroupPaths(d: Document, g: Spec, seen: set<string>, uses: seq<Path>, children: seq<Path>, providers: seq<Path>, proxies: seq<Path>) returns (paths: seq<Path>)
    requires Enumerates(uses, InOne(d, g.uses, UseHead)) && Enumerates(children, Under(d, g.children, seen))
    requires Enumerates(providers, InOne(d, AnyNames(d, g), AnyHead)) && Enumerates(proxies, InSlots(AnyCount(d, g), ProxyHead))
    ensures |paths| == |uses| + |children| + |providers| + |proxies| && Enumerates(paths, Either(Drawn(d, g, seen), Taken(d, g)))
  {
    KindsApart(d, g, seen);
    JoinEnumerations(uses, InOne(d, g.uses, UseHead), children, Under(d, g.children, seen));
    JoinEnumerations(providers, InOne(d, AnyNames(d, g), AnyHead), proxies, InSlots(AnyCount(d, g), ProxyHead));
    JoinEnumerations(uses + children, Drawn(d, g, seen), providers + proxies, Taken(d, g));
    paths := (uses + children) + (providers + proxies);
  }

  lemma InOneAt(d: Document, names: seq<string>, head: (nat, nat) -> Step, p: Path, i: nat, j: nat)
    requires Injective(head) && |p| == 1 && p[0] == head(i, j)
    ensures InOne(d, names, head)(p) <==> InProvider(d, names, i, j)
  {
  }

  /** A path down from an open group starts with one of the four kinds of step. */
  lemma GroupPathKinds(d: Document, name: string, seen: set<string>, p: Path)
    requires Opens(d, name) && name !in seen
    ensures At(d, name, seen)(p) <==> Either(Drawn(d, d.groups[name], seen + {name}), Taken(d, d.groups[name]))(p)
  {
    var g := d.groups[name];
    if p != [] {
      match p[0]
      case Use(i, j) => if |p| == 1 { InOneAt(d, g.uses, UseHead, p, i, j); }
      case Child(i) =>
      case AnyProvider(i, j) => if |p| == 1 { InOneAt(d, AnyNames(d, g), AnyHead, p, i, j); }
      case AnyProxy(i) => assert p[0] == ProxyHead(i);
    }
  }

  // ----- a complete estimate counts every way down -----

  lemma {:induction false} OpensOnce(d: Document, name: string, seen: set<string>, p: Path)
    requires !SizeOf(d, name, seen).incomplete
    ensures IsLeafPath(d, name, seen, p) <==> LeadsToNode(d, name, p)
    decreases |p|
  {
    if Opens(d, name) && p != [] && p[0].Child? && p[0].i < |d.groups[name].children| {
      var children := d.groups[name].children;
      SeenGrows(d, name, seen);
      ChildComplete(d, children, seen + {name}, p[0].i);
      OpensOnce(d, children[p[0].i], seen + {name}, p[1..]);
    }
  }

  lemma {:induction false} ChildComplete(d: Document, children: seq<string>, seen: set<string>, i: nat)
    requires i < |children| && !ChildSizes(d, children, seen).incomplete
    ensures !SizeOf(d, children[i], seen).incomplete
    decreases |children|
  {
    var k := |children| - 1;
    ChildSizesSplit(d, children, seen);
    if i < k {
      ChildComplete(d, children[..k], seen, i);
      assert children[..k][i] == children[i];
    }
  }

  lemma ChildSizesSplit(d: Document, children: seq<string>, seen: set<string>)
    requires children != []
    ensures var k := |children| - 1;
            ChildSizes(d, children, seen) == Plus(ChildSizes(d, children[..k], seen), SizeOf(d, children[k], seen))
  {
  }

  /** A complete estimate is the number of all ways down to a node. */
  lemma CompleteCountsAll(d: Document, name: string) returns (paths: seq<Path>)
    requires !SizeOf(d, name, {}).incomplete
    ensures |paths| == SizeOf(d, name, {}).count && Enumerates(paths, (p: Path) => LeadsToNode(d, name, p))
  {
    paths := CountsPaths(d, name, {});
    forall p ensures IsLeafPath(d, name, {}, p) <==> LeadsToNode(d, name, p) { OpensOnce(d, name, {}, p); }
    SameEnumeration(paths, At(d, name, {}), (p: Path) => LeadsToNode(d, name, p));
  }
}
