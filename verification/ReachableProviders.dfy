/** Breadth-first search for the providers a group reaches through group references. */
module ReachableProviders {
  import opened Ordering
  import opened Sifting

  datatype Node = Node(uses: seq<string>, proxies: seq<string>)

  type Table = map<string, Node>

  // ----- reachability -----

  predicate Refers(groups: Table, a: string, b: string) { a in groups && b in groups[a].proxies && b in groups }

  /** Group names, each but the first referred to by the one before it. */
  ghost predicate IsPath(groups: Table, p: seq<string>) {
    p != [] && forall i, j :: 0 <= i && j == i + 1 && j < |p| ==> Refers(groups, p[i], p[j])
  }

  ghost predicate Reaches(groups: Table, start: string, name: string) {
    exists p :: IsPath(groups, p) && p[0] == start && p[|p| - 1] == name
  }

  lemma ReachesSelf(groups: Table, start: string)
    ensures Reaches(groups, start, start)
  {
    assert IsPath(groups, [start]);
  }

  lemma ReachesOn(groups: Table, start: string, name: string, next: string)
    requires Reaches(groups, start, name) && name in groups && next in groups[name].proxies && next in groups
    ensures Reaches(groups, start, next)
  {
    var p :| IsPath(groups, p) && p[0] == start && p[|p| - 1] == name;
    var q := p + [next];
    assert IsPath(groups, q) && q[0] == start && q[|q| - 1] == next;
  }

  /** A set with the start and all its references holds everything reachable. */
  lemma {:induction false} ClosedHolds(groups: Table, visited: set<string>, p: seq<string>)
    requires IsPath(groups, p) && p[0] in visited
    requires forall x, y :: x in visited && x in groups && y in groups[x].proxies && y in groups ==> y in visited
    ensures p[|p| - 1] in visited
    decreases |p|
  {
    if |p| > 1 {
      assert Refers(groups, p[0], p[1]);
      ClosedHolds(groups, visited, p[1..]);
    }
  }

  // ----- the search -----

  function Known(names: seq<string>, table: set<string>): (r: seq<string>)
    ensures forall x :: x in r <==> x in names && x in table
  {
    if names == [] then [] else (if names[0] in table then [names[0]] else []) + Known(names[1..], table)
  }

  /** A known provider some reachable group uses. */
  ghost predicate Offered(groups: Table, providers: set<string>, start: string, provider: string) {
    provider in providers && exists g :: Reaches(groups, start, g) && g in groups && provider in groups[g].uses
  }

  /** What is found, visited and pending part way through. */
  ghost predicate Searched(groups: Table, providers: set<string>, start: string, found: seq<string>, pending: seq<string>, visited: set<string>) {
    && (forall x :: x in visited || x in pending ==> Reaches(groups, start, x) && (x == start || x in groups))
    && (start in visited || start in pending)
    && (forall x, y :: x in visited && x in groups && y in groups[x].proxies && y in groups ==> y in visited || y in pending)
    && (forall p :: p in found <==> p in providers && exists g :: g in visited && g in groups && p in groups[g].uses)
  }

  // ----- nearest first -----

  /** `n` references lead from the start to `name`. */
  ghost predicate InSteps(groups: Table, start: string, name: string, n: nat) {
    exists p :: IsPath(groups, p) && p[0] == start && p[|p| - 1] == name && |p| == n + 1
  }

  /** A group `n` references away from the start uses the provider. */
  ghost predicate OfferedIn(groups: Table, start: string, provider: string, n: nat) {
    exists g :: InSteps(groups, start, g, n) && g in groups && provider in groups[g].uses
  }

  ghost predicate OfferedWithin(groups: Table, start: string, provider: string, n: nat) {
    exists m: nat :: m <= n && OfferedIn(groups, start, provider, m)
  }

  /** A provider comes ahead of those whose nearest group is further from the start. */
  ghost predicate NearestFirst(groups: Table, start: string, r: seq<string>) {
    forall i, j, n: nat :: 0 <= i < j < |r| && OfferedIn(groups, start, r[j], n) ==> OfferedWithin(groups, start, r[i], n)
  }

  /** What the search knows besides names: how far each visited and each pending name is, and how far each find. */
  datatype Layers = Layers(depth: map<string, nat>, levels: seq<nat>, ranks: seq<nat>)

  ghost predicate Rising(levels: seq<nat>) {
    (forall i, j :: 0 <= i < j < |levels| ==> levels[i] <= levels[j]) && forall i :: 0 <= i < |levels| ==> levels[i] <= levels[0] + 1
  }

  /** Visited no further away than `n`, or going to be. */
  ghost predicate Near(l: Layers, pending: seq<string>, name: string, n: nat) {
    (name in l.depth && l.depth[name] <= n) || exists i :: 0 <= i < |pending| && i < |l.levels| && pending[i] == name && l.levels[i] <= n
  }

  ghost predicate Rightly(groups: Table, start: string, pending: seq<string>, l: Layers) {
    && |l.levels| == |pending| && Rising(l.levels)
    && (forall x :: x in l.depth ==> InSteps(groups, start, x, l.depth[x]))
    && (forall i :: 0 <= i < |pending| ==> InSteps(groups, start, pending[i], l.levels[i]))
    && forall x, i :: x in l.depth && 0 <= i < |pending| ==> l.depth[x] <= l.levels[i]
  }

  ghost predicate Closing(groups: Table, start: string, pending: seq<string>, l: Layers) {
    && Near(l, pending, start, 0)
    && forall x, y :: x in l.depth && Refers(groups, x, y) ==> Near(l, pending, y, l.depth[x] + 1)
  }

  ghost predicate IsRank(groups: Table, l: Layers, provider: string, rank: nat) {
    exists g :: g in l.depth && l.depth[g] == rank && g in groups && provider in groups[g].uses
  }

  ghost predicate FoundBy(found: seq<string>, l: Layers, provider: string, n: nat) {
    exists k :: 0 <= k < |found| && k < |l.ranks| && found[k] == provider && l.ranks[k] <= n
  }

  ghost predicate Ranks(groups: Table, providers: set<string>, found: seq<string>, l: Layers) {
    && |l.ranks| == |found| && (forall i, j :: 0 <= i < j < |found| ==> l.ranks[i] <= l.ranks[j])
    && (forall k :: 0 <= k < |found| ==> IsRank(groups, l, found[k], l.ranks[k]))
    && forall g, p :: g in l.depth && g in groups && p in groups[g].uses && p in providers ==> FoundBy(found, l, p, l.depth[g])
  }

  ghost predicate Layered(groups: Table, providers: set<string>, start: string, found: seq<string>, pending: seq<string>, l: Layers) {
    Rightly(groups, start, pending, l) && Closing(groups, start, pending, l) && Ranks(groups, providers, found, l)
  }

  lemma StartLayered(groups: Table, providers: set<string>, start: string)
    ensures Layered(groups, providers, start, [], [start], Layers(map[], [0], []))
  {
    assert IsPath(groups, [start]);
    assert [start][0] == start && [0][0] == 0;
  }

  /** A pending name near enough is still near once the head has been visited. */
  lemma NearAfter(l: Layers, pending: seq<string>, more: seq<string>, m: Layers, name: string, n: nat)
    requires pending != [] && |l.levels| == |pending| && Near(l, pending, name, n)
    requires |m.levels| == |pending| - 1 + |more| && m.levels[..|pending| - 1] == l.levels[1..]
    requires forall x :: x in l.depth ==> x in m.depth && m.depth[x] == l.depth[x]
    requires pending[0] in m.depth && m.depth[pending[0]] <= l.levels[0]
    ensures Near(m, pending[1..] + more, name, n)
  {
    if !(name in l.depth && l.depth[name] <= n) {
      var i :| 0 <= i < |pending| && pending[i] == name && l.levels[i] <= n;
      if i > 0 { assert (pending[1..] + more)[i - 1] == name && m.levels[..|pending| - 1][i - 1] == l.levels[1..][i - 1]; }
    }
  }

  lemma ClosingSkip(groups: Table, start: string, pending: seq<string>, l: Layers)
    requires Rightly(groups, start, pending, l) && Closing(groups, start, pending, l) && pending != [] && pending[0] in l.depth
    ensures Closing(groups, start, pending[1..], l.(levels := l.levels[1..]))
  {
    var m := l.(levels := l.levels[1..]);
    assert pending[1..] + [] == pending[1..];
    NearAfter(l, pending, [], m, start, 0);
    forall x, y | x in l.depth && Refers(groups, x, y) ensures Near(m, pending[1..], y, l.depth[x] + 1) {
      NearAfter(l, pending, [], m, y, l.depth[x] + 1);
    }
  }

  lemma LayeredSkip(groups: Table, providers: set<string>, start: string, found: seq<string>, pending: seq<string>, l: Layers)
    requires Layered(groups, providers, start, found, pending, l) && pending != [] && pending[0] in l.depth
    ensures Layered(groups, providers, start, found, pending[1..], l.(levels := l.levels[1..]))
  {
    ClosingSkip(groups, start, pending, l);
    RanksKept(groups, providers, found, l, l.(levels := l.levels[1..]));
  }

  lemma RanksKept(groups: Table, providers: set<string>, found: seq<string>, l: Layers, m: Layers)
    requires Ranks(groups, providers, found, l) && m.depth == l.depth && m.ranks == l.ranks
    ensures Ranks(groups, providers, found, m)
  {
    forall k | 0 <= k < |found| ensures IsRank(groups, m, found[k], m.ranks[k]) { assert IsRank(groups, l, found[k], l.ranks[k]); }
    forall g, p | g in m.depth && g in groups && p in groups[g].uses && p in providers ensures FoundBy(found, m, p, m.depth[g]) {
      assert FoundBy(found, l, p, l.depth[g]);
    }
  }

  ghost function Repeat(n: nat, size: nat): seq<nat> { seq(size, i requires 0 <= i < size => n) }

  /** The layers once the head of the queue is visited, `more` references appended and `finds` providers found in it. */
  ghost function Visited(l: Layers, name: string, more: nat, finds: nat): Layers
    requires l.levels != []
  {
    Layers(l.depth[name := l.levels[0]], l.levels[1..] + Repeat(l.levels[0] + 1, more), l.ranks + Repeat(l.levels[0], finds))
  }

  lemma StepOn(groups: Table, start: string, name: string, next: string, n: nat)
    requires InSteps(groups, start, name, n) && Refers(groups, name, next)
    ensures InSteps(groups, start, next, n + 1)
  {
    var p :| IsPath(groups, p) && p[0] == start && p[|p| - 1] == name && |p| == n + 1;
    var q := p + [next];
    assert IsPath(groups, q) && q[0] == start && q[|q| - 1] == next;
  }

  lemma RightlyVisit(groups: Table, start: string, pending: seq<string>, l: Layers, more: seq<string>, finds: nat)
    requires Rightly(groups, start, pending, l) && pending != [] && pending[0] !in l.depth
    requires forall y :: y in more ==> Refers(groups, pending[0], y)
    ensures Rightly(groups, start, pending[1..] + more, Visited(l, pending[0], |more|, finds))
  {
    var m, rest := Visited(l, pending[0], |more|, finds), pending[1..] + more;
    forall i | 0 <= i < |rest| ensures InSteps(groups, start, rest[i], m.levels[i]) && l.levels[0] <= m.levels[i] <= l.levels[0] + 1 {
      if i < |pending| - 1 {
        assert rest[i] == pending[i + 1] && m.levels[i] == l.levels[i + 1];
      } else {
        assert rest[i] == more[i - |pending| + 1] && m.levels[i] == l.levels[0] + 1;
        StepOn(groups, start, pending[0], rest[i], l.levels[0]);
      }
    }
    forall i, j | 0 <= i < j < |rest| ensures m.levels[i] <= m.levels[j] {
      if j < |pending| - 1 { assert m.levels[i] == l.levels[i + 1] && m.levels[j] == l.levels[j + 1]; } else { assert m.levels[j] == l.levels[0] + 1; }
    }
  }

  lemma ClosingVisit(groups: Table, start: string, pending: seq<string>, l: Layers, more: seq<string>, finds: nat)
    requires Rightly(groups, start, pending, l) && Closing(groups, start, pending, l) && pending != [] && pending[0] !in l.depth
    requires forall y :: Refers(groups, pending[0], y) ==> y in more
    ensures Closing(groups, start, pending[1..] + more, Visited(l, pending[0], |more|, finds))
  {
    var m, rest := Visited(l, pending[0], |more|, finds), pending[1..] + more;
    NearAfter(l, pending, more, m, start, 0);
    forall x, y | x in m.depth && Refers(groups, x, y) ensures Near(m, rest, y, m.depth[x] + 1) {
      if x == pending[0] {
        var k :| 0 <= k < |more| && more[k] == y;
        assert rest[|pending| - 1 + k] == y && m.levels[|pending| - 1 + k] == l.levels[0] + 1;
      } else {
        NearAfter(l, pending, more, m, y, l.depth[x] + 1);
      }
    }
  }

  lemma RankOn(groups: Table, l: Layers, m: Layers, provider: string, rank: nat)
    requires IsRank(groups, l, provider, rank) && forall x :: x in l.depth ==> x in m.depth && m.depth[x] == l.depth[x]
    ensures IsRank(groups, m, provider, rank) && exists x :: x in l.depth && l.depth[x] == rank
  {
    var g :| g in l.depth && l.depth[g] == rank && g in groups && provider in groups[g].uses;
    assert g in m.depth && m.depth[g] == rank;
  }

  lemma FoundOn(found: seq<string>, l: Layers, more: seq<string>, m: Layers, provider: string, n: nat)
    requires FoundBy(found, l, provider, n) && |l.ranks| == |found| && |l.ranks| <= |m.ranks| && m.ranks[..|l.ranks|] == l.ranks
    ensures FoundBy(found + more, m, provider, n)
  {
    var k :| 0 <= k < |found| && k < |l.ranks| && found[k] == provider && l.ranks[k] <= n;
    assert (found + more)[k] == provider && m.ranks[..|l.ranks|][k] == l.ranks[k];
  }

  lemma FoundNew(found: seq<string>, finds: seq<string>, m: Layers, provider: string, n: nat)
    requires provider in finds && |m.ranks| == |found| + |finds| && forall k :: |found| <= k < |m.ranks| ==> m.ranks[k] <= n
    ensures FoundBy(found + finds, m, provider, n)
  {
    var k :| 0 <= k < |finds| && finds[k] == provider;
    assert (found + finds)[|found| + k] == provider;
  }

  lemma RanksRise(groups: Table, providers: set<string>, found: seq<string>, name: string, l: Layers, more: nat, finds: seq<string>)
    requires Ranks(groups, providers, found, l) && l.levels != [] && name !in l.depth && (forall x :: x in l.depth ==> l.depth[x] <= l.levels[0])
    requires forall p :: p in finds ==> name in groups && p in groups[name].uses
    ensures var m, all := Visited(l, name, more, |finds|), found + finds;
            |m.ranks| == |all| && forall k :: 0 <= k < |all| ==> IsRank(groups, m, all[k], m.ranks[k]) && m.ranks[k] <= l.levels[0]
  {
    var m, all := Visited(l, name, more, |finds|), found + finds;
    forall k | 0 <= k < |all| ensures IsRank(groups, m, all[k], m.ranks[k]) && m.ranks[k] <= l.levels[0] {
      if k < |found| {
        assert all[k] == found[k] && m.ranks[k] == l.ranks[k];
        RankOn(groups, l, m, found[k], l.ranks[k]);
      } else {
        assert all[k] == finds[k - |found|] && all[k] in finds && m.ranks[k] == l.levels[0] && m.depth[name] == l.levels[0];
      }
    }
  }

  lemma RanksVisit(groups: Table, providers: set<string>, found: seq<string>, name: string, l: Layers, more: nat, finds: seq<string>)
    requires Ranks(groups, providers, found, l) && l.levels != [] && name !in l.depth && forall x :: x in l.depth ==> l.depth[x] <= l.levels[0]
    requires finds == if name in groups then Known(groups[name].uses, providers) else []
    ensures Ranks(groups, providers, found + finds, Visited(l, name, more, |finds|))
  {
    var m, all := Visited(l, name, more, |finds|), found + finds;
    RanksRise(groups, providers, found, name, l, more, finds);
    assert m.ranks[..|l.ranks|] == l.ranks;
    forall i, j | 0 <= i < j < |all| ensures m.ranks[i] <= m.ranks[j] {
      if j < |found| { assert m.ranks[i] == l.ranks[i] && m.ranks[j] == l.ranks[j]; } else { assert m.ranks[j] == l.levels[0]; }
    }
    forall g, p | g in m.depth && g in groups && p in groups[g].uses && p in providers ensures FoundBy(all, m, p, m.depth[g]) {
      if g == name { FoundNew(found, finds, m, p, l.levels[0]); } else { FoundOn(found, l, finds, m, p, l.depth[g]); }
    }
  }

  lemma LayeredVisit(groups: Table, providers: set<string>, start: string, found: seq<string>, pending: seq<string>, l: Layers,
                     more: seq<string>, finds: seq<string>)
    requires Layered(groups, providers, start, found, pending, l) && pending != [] && pending[0] !in l.depth
    requires more == if pending[0] in groups then Known(groups[pending[0]].proxies, groups.Keys) else []
    requires finds == if pending[0] in groups then Known(groups[pending[0]].uses, providers) else []
    ensures Layered(groups, providers, start, found + finds, pending[1..] + more, Visited(l, pending[0], |more|, |finds|))
  {
    RightlyVisit(groups, start, pending, l, more, |finds|);
    ClosingVisit(groups, start, pending, l, more, |finds|);
    RanksVisit(groups, providers, found, pending[0], l, |more|, finds);
  }

  /** With nothing pending every path bounds the depth of its end. */
  lemma {:induction false} DepthIsLeast(groups: Table, start: string, l: Layers, p: seq<string>)
    requires Closing(groups, start, [], l) && IsPath(groups, p) && p[0] == start
    ensures p[|p| - 1] in l.depth && l.depth[p[|p| - 1]] <= |p| - 1
    decreases |p|
  {
    if |p| > 1 {
      var k := |p| - 1;
      assert Refers(groups, p[k - 1], p[k]);
      DepthIsLeast(groups, start, l, p[..k]);
      assert Near(l, [], p[k], l.depth[p[k - 1]] + 1);
    }
  }

  lemma OfferedFound(groups: Table, providers: set<string>, start: string, found: seq<string>, l: Layers, provider: string, n: nat)
    requires Layered(groups, providers, start, found, [], l) && OfferedIn(groups, start, provider, n) && provider in providers
    ensures FoundBy(found, l, provider, n)
  {
    var g :| InSteps(groups, start, g, n) && g in groups && provider in groups[g].uses;
    var p :| IsPath(groups, p) && p[0] == start && p[|p| - 1] == g && |p| == n + 1;
    DepthIsLeast(groups, start, l, p);
    assert FoundBy(found, l, provider, l.depth[g]);
  }

  lemma FoundOffers(groups: Table, providers: set<string>, start: string, found: seq<string>, l: Layers, k: nat)
    requires Layered(groups, providers, start, found, [], l) && k < |found|
    ensures OfferedIn(groups, start, found[k], l.ranks[k])
  {
    assert IsRank(groups, l, found[k], l.ranks[k]);
    var g :| g in l.depth && l.depth[g] == l.ranks[k] && g in groups && found[k] in groups[g].uses;
    assert InSteps(groups, start, g, l.ranks[k]);
  }

  lemma Nearer(groups: Table, providers: set<string>, start: string, found: seq<string>, l: Layers, i: nat, j: nat, n: nat)
    requires Layered(groups, providers, start, found, [], l) && i < j < |found| && FirstAt(found, j)
    requires found[j] in providers && OfferedIn(groups, start, found[j], n)
    ensures OfferedWithin(groups, start, found[i], n)
  {
    OfferedFound(groups, providers, start, found, l, found[j], n);
    var k :| 0 <= k < |found| && found[k] == found[j] && l.ranks[k] <= n;
    assert j <= k;
    FoundOffers(groups, providers, start, found, l, i);
  }

  /** Each provider kept at its first find, the nearest come first. */
  lemma FirstsNearest(groups: Table, providers: set<string>, start: string, found: seq<string>, l: Layers)
    requires Layered(groups, providers, start, found, [], l) && forall p :: p in found ==> p in providers
    ensures NearestFirst(groups, start, Unique(found))
  {
    var at := UniqueExactly(found);
    FirstsRead(found, at, Unique(found));
    forall i, j, n: nat | 0 <= i < j < |at| && OfferedIn(groups, start, found[at[j]], n) ensures OfferedWithin(groups, start, found[at[i]], n) {
      assert FirstAt(found, at[j]);
      Nearer(groups, providers, start, found, l, at[i], at[j], n);
    }
  }

  lemma FirstsRead(found: seq<string>, at: seq<nat>, r: seq<string>)
    requires FirstsAt(found, at) && ReadAt(found, at, r)
    ensures |r| == |at| && (forall i :: 0 <= i < |at| ==> at[i] < |found| && r[i] == found[at[i]] && FirstAt(found, at[i]))
    ensures forall i, j :: 0 <= i < j < |at| ==> at[i] < at[j]
  {
    forall i | 0 <= i < |at| ensures FirstAt(found, at[i]) { assert at[i] in at; }
  }

  /** What is found, visited and pending, with how far each of it is. */
  ghost predicate Surveyed(groups: Table, providers: set<string>, start: string, found: seq<string>, pending: seq<string>, visited: set<string>, l: Layers) {
    Searched(groups, providers, start, found, pending, visited) && Layered(groups, providers, start, found, pending, l) && l.depth.Keys == visited
  }

  lemma SurveySkip(groups: Table, providers: set<string>, start: string, found: seq<string>, pending: seq<string>, visited: set<string>, l: Layers)
    requires Surveyed(groups, providers, start, found, pending, visited, l) && pending != [] && pending[0] in visited
    ensures |l.levels| == |pending| && Surveyed(groups, providers, start, found, pending[1..], visited, l.(levels := l.levels[1..]))
  {
    SkipVisited(groups, providers, start, found, pending, visited);
    LayeredSkip(groups, providers, start, found, pending, l);
  }

  lemma SurveyVisit(groups: Table, providers: set<string>, start: string, found: seq<string>, pending: seq<string>, visited: set<string>, l: Layers,
                    more: seq<string>, finds: seq<string>)
    requires Surveyed(groups, providers, start, found, pending, visited, l) && pending != [] && pending[0] !in visited
    requires more == if pending[0] in groups then Known(groups[pending[0]].proxies, groups.Keys) else []
    requires finds == if pending[0] in groups then Known(groups[pending[0]].uses, providers) else []
    ensures |l.levels| == |pending|
    ensures Surveyed(groups, providers, start, found + finds, pending[1..] + more, visited + {pending[0]}, Visited(l, pending[0], |more|, |finds|))
  {
    LayeredVisit(groups, providers, start, found, pending, l, more, finds);
    if pending[0] in groups {
      Opened(groups, providers, start, found, pending, visited);
    } else {
      Missing(groups, providers, start, found, pending, visited);
      assert found + finds == found && pending[1..] + more == pending[1..];
    }
  }

  lemma SurveyStart(groups: Table, providers: set<string>, start: string)
    ensures Surveyed(groups, providers, start, [], [start], {}, Layers(map[], [0], []))
  {
    ReachesSelf(groups, start);
    StartLayered(groups, providers, start);
  }

  lemma SurveyEnds(groups: Table, providers: set<string>, start: string, found: seq<string>, visited: set<string>, l: Layers)
    requires Surveyed(groups, providers, start, found, [], visited, l)
    ensures (forall p :: p in found <==> Offered(groups, providers, start, p)) && NearestFirst(groups, start, Unique(found))
  {
    FoundIsOffered(groups, providers, start, found, visited);
    FirstsNearest(groups, providers, start, found, l);
  }

  /** Terminates on cyclic graphs and repeated references; returns each provider the start reaches once, the nearest first, and nothing else. */
  method FindReachable(start: string, groups: Table, providers: set<string>) returns (r: seq<string>)
    ensures NoDuplicates(r) && forall p :: p in r <==> Offered(groups, providers, start, p)
    ensures NearestFirst(groups, start, r)
  {
    var found: seq<string> := [];
    var pending := [start];
    var visited: set<string> := {};
    ghost var l := Layers(map[], [0], []);
    SurveyStart(groups, providers, start);
    while pending != []
      invariant Surveyed(groups, providers, start, found, pending, visited, l)
      decreases |groups.Keys + {start} - visited|, |pending|
    {
      var name := pending[0];
      if name in visited {
        SurveySkip(groups, providers, start, found, pending, visited, l);
        l := l.(levels := l.levels[1..]);
        pending := pending[1..];
      } else {
        assert name in groups.Keys + {start} - visited;
        Shrinks(groups.Keys + {start}, visited, name);
        var uses, references := [], [];
        if name in groups { uses, references := Known(groups[name].uses, providers), Known(groups[name].proxies, groups.Keys); }
        SurveyVisit(groups, providers, start, found, pending, visited, l, references, uses);
        l := Visited(l, name, |references|, |uses|);
        found := found + uses;
        pending := pending[1..] + references;
        visited := visited + {name};
      }
    }
    SurveyEnds(groups, providers, start, found, visited, l);
    return Unique(found);
  }

  lemma Shrinks(all: set<string>, visited: set<string>, name: string)
    requires name in all - visited
    ensures |all - (visited + {name})| < |all - visited|
  {
    assert all - visited == (all - (visited + {name})) + {name};
  }

  lemma SkipVisited(groups: Table, providers: set<string>, start: string, found: seq<string>, pending: seq<string>, visited: set<string>)
    requires Searched(groups, providers, start, found, pending, visited) && pending != [] && pending[0] in visited
    ensures Searched(groups, providers, start, found, pending[1..], visited)
  {
    assert forall x :: x in pending <==> x == pending[0] || x in pending[1..];
  }

  lemma Missing(groups: Table, providers: set<string>, start: string, found: seq<string>, pending: seq<string>, visited: set<string>)
    requires Searched(groups, providers, start, found, pending, visited) && pending != [] && pending[0] !in groups
    ensures Searched(groups, providers, start, found, pending[1..], visited + {pending[0]})
  {
    assert forall x :: x in pending <==> x == pending[0] || x in pending[1..];
  }

  lemma Opened(groups: Table, providers: set<string>, start: string, found: seq<string>, pending: seq<string>, visited: set<string>)
    requires Searched(groups, providers, start, found, pending, visited) && pending != [] && pending[0] in groups
    ensures var g := groups[pending[0]];
            Searched(groups, providers, start, found + Known(g.uses, providers), pending[1..] + Known(g.proxies, groups.Keys), visited + {pending[0]})
  {
    var name := pending[0];
    var refs := Known(groups[name].proxies, groups.Keys);
    assert forall x :: x in pending <==> x == name || x in pending[1..];
    forall x | x in refs ensures Reaches(groups, start, x) { ReachesOn(groups, start, name, x); }
    var more := found + Known(groups[name].uses, providers);
    forall p ensures p in more <==> p in providers && exists g :: g in visited + {name} && g in groups && p in groups[g].uses {
      assert p in more <==> p in found || p in Known(groups[name].uses, providers);
    }
  }

  /** With nothing pending, what was found is exactly what the start reaches. */
  lemma FoundIsOffered(groups: Table, providers: set<string>, start: string, found: seq<string>, visited: set<string>)
    requires Searched(groups, providers, start, found, [], visited)
    ensures forall p :: p in found <==> Offered(groups, providers, start, p)
  {
    forall g | Reaches(groups, start, g) ensures g in visited {
      var p :| IsPath(groups, p) && p[0] == start && p[|p| - 1] == g;
      ClosedHolds(groups, visited, p);
    }
  }
}
