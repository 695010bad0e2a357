/** Dependency graphs of routing groups and the depth-first cycle check. */
module GroupCycles {
  import opened Ordering
  import opened Results

  /** A declared group member: a builtin, another group, an automatic pool, or something else entirely. */
  datatype Member = BuiltinRef(name: string) | GroupRef(name: string) | PoolRef(pool: string) | Malformed

  datatype Row = Row(name: string, enabledBy: Option<string>, members: seq<Member>)

  type Graph = map<string, set<string>>

  // ----- paths and cycles -----

  ghost predicate IsPath(g: Graph, p: seq<string>) {
    p != [] && forall i :: 0 <= i < |p| - 1 ==> p[i] in g && p[i + 1] in g[p[i]]
  }

  ghost predicate IsCycle(g: Graph, p: seq<string>) { |p| >= 2 && IsPath(g, p) && p[0] == p[|p| - 1] }

  ghost predicate Acyclic(g: Graph) { forall p :: !IsCycle(g, p) }

  predicate Closed(g: Graph) { forall x, y :: x in g && y in g[x] ==> y in g }

  /** Dependencies come strictly earlier. */
  ghost predicate Topological(g: Graph, order: seq<string>) {
    NoDuplicates(order) && forall i :: 0 <= i < |order| ==> order[i] in g && forall y :: y in g[order[i]] ==> y in order[..i]
  }

  ghost function IndexIn(order: seq<string>, x: string): (i: nat)
    requires x in order
    ensures i < |order| && order[i] == x
  {
    if order[0] == x then 0 else 1 + IndexIn(order[1..], x)
  }

  /** Along a path the position in a topological order drops at every edge. */
  lemma {:induction false} PathDescends(g: Graph, order: seq<string>, p: seq<string>)
    requires Topological(g, order) && IsPath(g, p) && p[0] in order
    ensures p[|p| - 1] in order
    ensures |p| > 1 ==> IndexIn(order, p[|p| - 1]) < IndexIn(order, p[0])
    decreases |p|
  {
    if |p| > 1 {
      var i := IndexIn(order, p[0]);
      assert p[1] in order[..i];
      var j :| 0 <= j < i && order[j] == p[1];
      assert IndexIn(order, p[1]) == j;
      assert p[1..][|p| - 2] == p[|p| - 1];
      PathDescends(g, order, p[1..]);
    }
  }

  lemma TopologicalExtends(g: Graph, order: seq<string>, x: string)
    requires Topological(g, order) && x in g && x !in order && forall y :: y in g[x] ==> y in order
    ensures Topological(g, order + [x])
  {
    var longer := order + [x];
    forall i | 0 <= i < |longer| ensures longer[i] in g && forall y :: y in g[longer[i]] ==> y in longer[..i] {
      assert longer[..i] == order[..i];
      if i == |order| { assert order[..i] == order; }
    }
  }

  lemma TopologicalIsAcyclic(g: Graph, order: seq<string>)
    requires Topological(g, order) && Closed(g) && forall x :: x in g ==> x in order
    ensures Acyclic(g)
  {
    forall p ensures !IsCycle(g, p) {
      if |p| >= 2 && IsPath(g, p) {
        PathDescends(g, order, p);
      }
    }
  }

  /** Every nonempty set of nodes of an acyclic graph has a member none of whose dependencies is in the set. */
  lemma SinkExists(g: Graph, s: set<string>) returns (x: string)
    requires Acyclic(g) && s != {} && s <= g.Keys
    ensures x in s && g[x] !! s
  {
    var start :| start in s;
    x := WalkToSink(g, s, [start]);
  }

  lemma WalkToSink(g: Graph, s: set<string>, p: seq<string>) returns (x: string)
    requires Acyclic(g) && s <= g.Keys && IsPath(g, p) && NoDuplicates(p) && forall y :: y in p ==> y in s
    ensures x in s && g[x] !! s
    decreases |s| - |p|
  {
    var last := p[|p| - 1];
    DistinctFits(p, s);
    if g[last] !! s {
      x := last;
    } else {
      var y :| y in g[last] && y in s;
      var q := p + [y];
      assert IsPath(g, q);
      if y in p {
        var i :| 0 <= i < |p| && p[i] == y;
        assert IsCycle(g, q[i..]);
        assert false;
      }
      DistinctFits(q, s);
      x := WalkToSink(g, s, q);
    }
  }

  lemma {:induction false} DistinctFits(p: seq<string>, s: set<string>)
    requires NoDuplicates(p) && forall y :: y in p ==> y in s
    ensures |p| <= |s|
  {
    if p != [] {
      var n := |p| - 1;
      assert p[n] !in p[..n];
      DistinctFits(p[..n], s - {p[n]});
    }
  }

  /** Fewer edges, still no cycle. */
  lemma SubgraphAcyclic(g: Graph, h: Graph)
    requires Acyclic(g) && forall x :: x in h ==> x in g && h[x] <= g[x]
    ensures Acyclic(h)
  {
    forall p ensures !IsCycle(h, p) {
      if IsCycle(h, p) { assert IsCycle(g, p); }
    }
  }

  // ----- the validator -----

  function RowNames(rows: seq<Row>): set<string> { set r | r in rows :: r.name }

  function GroupRefs(members: seq<Member>, names: set<string>): set<string> {
    set m | m in members && m.GroupRef? && m.name in names :: m.name
  }

  /** Built row by row, so the last row of a name decides. */
  function Dependencies(rows: seq<Row>, names: set<string>): (g: Graph)
    ensures g.Keys == RowNames(rows)
    ensures forall x :: x in g ==> g[x] <= names
  {
    if rows == [] then map[]
    else
      var n := |rows| - 1;
      assert rows == rows[..n] + [rows[n]];
      Dependencies(rows[..n], names)[rows[n].name := GroupRefs(rows[n].members, names)]
  }

  class Visitor {
    const dependencies: Graph
    var visiting: set<string>
    var visited: set<string>
    ghost var finished: seq<string>

    constructor (dependencies: Graph)
      ensures this.dependencies == dependencies && visiting == {} && Finished()
      ensures finished == []
    {
      this.dependencies := dependencies;
      visiting, visited, finished := {}, {}, [];
    }

    /** The visited nodes, in the order they were left, are topologically ordered. */
    ghost predicate Finished()
      reads this
    {
      (forall x :: x in visited <==> x in finished) && Topological(dependencies, finished) && visiting !! visited
    }

    /** Depth-first visit; `false` where the code raises. `stack` is the chain of calls in progress. */
    method Visit(name: string, ghost stack: seq<string>) returns (ok: bool)
      requires Closed(dependencies) && name in dependencies && Finished()
      requires IsPath(dependencies, stack + [name]) && (forall x :: x in visiting <==> x in stack)
      requires visiting <= dependencies.Keys
      modifies this
      ensures ok ==> Finished() && visiting == old(visiting) && name in visited && old(visited) <= visited
      ensures !ok ==> !Acyclic(dependencies)
      decreases dependencies.Keys - visiting
    {
      if name in visited { return true; }
      if name in visiting {
        ghost var i :| 0 <= i < |stack| && stack[i] == name;
        assert IsCycle(dependencies, (stack + [name])[i..]);
        return false;
      }
      ghost var before := visiting;
      visiting := visiting + {name};
      ghost var path := stack + [name];
      var rest := dependencies[name];
      while rest != {}
        invariant rest <= dependencies[name] && dependencies[name] - rest <= visited
        invariant Finished() && visiting == before + {name} && name !in before && old(visited) <= visited
        decreases rest
      {
        var dependency :| dependency in rest;
        rest := rest - {dependency};
        assert IsPath(dependencies, path + [dependency]);
        var fine := Visit(dependency, path);
        if !fine { return false; }
      }
      visiting := visiting - {name};
      assert visiting == before;
      TopologicalExtends(dependencies, finished, name);
      visited := visited + {name};
      finished := finished + [name];
      return true;
    }
  }

  /** Visits every node; accepts exactly the graphs without a cycle. */
  method CheckCycles(dependencies: Graph) returns (ok: bool)
    requires Closed(dependencies)
    ensures ok <==> Acyclic(dependencies)
  {
    var visitor := new Visitor(dependencies);
    ok := VisitAll(visitor, Sorted(dependencies.Keys));
    if ok { TopologicalIsAcyclic(dependencies, visitor.finished); }
  }

  method VisitAll(visitor: Visitor, order: seq<string>) returns (ok: bool)
    requires Closed(visitor.dependencies) && visitor.Finished() && visitor.visiting == {}
    requires forall x :: x in order ==> x in visitor.dependencies
    modifies visitor
    ensures ok ==> visitor.Finished() && forall x :: x in order ==> x in visitor.visited
    ensures !ok ==> !Acyclic(visitor.dependencies)
  {
    for k := 0 to |order|
      invariant visitor.Finished() && visitor.visiting == {}
      invariant forall x :: x in order[..k] ==> x in visitor.visited
    {
      assert order[k] in order;
      assert IsPath(visitor.dependencies, [] + [order[k]]);
      var fine := visitor.Visit(order[k], []);
      if !fine { return false; }
    }
    assert order[..|order|] == order;
    return true;
  }

  /** Accepts exactly the tables whose dependency relation has no cycle. */
  method ValidateGroupCycles(rows: seq<Row>) returns (ok: bool)
    ensures ok <==> Acyclic(Dependencies(rows, RowNames(rows)))
  {
    ok := CheckCycles(Dependencies(rows, RowNames(rows)));
  }

  /** The dependencies of a name are the group references of its last row to names of the table. */
  lemma {:induction false} DependsExactly(rows: seq<Row>, names: set<string>, i: nat, y: string)
    requires i < |rows| && forall j :: i < j < |rows| ==> rows[j].name != rows[i].name
    ensures rows[i].name in Dependencies(rows, names)
    ensures y in Dependencies(rows, names)[rows[i].name] <==> GroupRef(y) in rows[i].members && y in names
  {
    var k := |rows| - 1;
    DependenciesSnoc(rows, names, rows[i].name);
    if i < k {
      assert rows[k].name != rows[i].name && rows[..k][i] == rows[i];
      DependsExactly(rows[..k], names, i, y);
    }
  }

  lemma DependenciesSnoc(rows: seq<Row>, names: set<string>, x: string)
    requires rows != [] && x in RowNames(rows)
    ensures var k := |rows| - 1;
            if rows[k].name == x then Dependencies(rows, names)[x] == GroupRefs(rows[k].members, names)
            else x in Dependencies(rows[..k], names) && Dependencies(rows, names)[x] == Dependencies(rows[..k], names)[x]
  {
  }
}
