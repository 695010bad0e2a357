/** The fixpoint that emits routing groups once everything they refer to is known. */
module ExternalGroups {
  import opened Ordering
  import opened Results
  import opened Routing
  import opened Sifting
  import opened GroupCycles

  /** The rows whose module is on. */
  function Enabled(specs: seq<Row>, modules: map<string, bool>): (r: seq<Row>)
    ensures forall x :: x in r <==> x in specs && (x.enabledBy.None? || (x.enabledBy.value in modules && modules[x.enabledBy.value]))
  {
    if specs == [] then []
    else
      var row := specs[0];
      (if row.enabledBy.None? || (row.enabledBy.value in modules && modules[row.enabledBy.value]) then [row] else []) + Enabled(specs[1..], modules)
  }

  datatype Resolution = Resolved(names: seq<string>) | Missing | Invalid

  /** The group name a member stands for; `None` when its pool is unknown. */
  function Reference(member: Member, pools: map<string, string>): Option<string> {
    match member
    case BuiltinRef(name) => Some(name)
    case GroupRef(name) => Some(name)
    case PoolRef(pool) => if pool in pools then Some(pools[pool]) else None
    case Malformed => None
  }

  predicate Known(member: Member, known: set<string>, pools: map<string, string>) {
    match member
    case BuiltinRef(_) => true
    case GroupRef(name) => name in known
    case PoolRef(pool) => pool in pools && pools[pool] in known
    case Malformed => false
  }

  /** Left to right: the first unknown reference postpones the row, a malformed member raises. */
  function Resolve(members: seq<Member>, known: set<string>, pools: map<string, string>): (r: Resolution)
    ensures r.Resolved? <==> forall m :: m in members ==> Known(m, known, pools)
    ensures r.Invalid? ==> Malformed in members
  {
    if members == [] then Resolved([])
    else if !Known(members[0], known, pools) then
      assert members[0] in members;
      if members[0].Malformed? then Invalid else Missing
    else
      assert members == [members[0]] + members[1..];
      var rest := Resolve(members[1..], known, pools);
      if rest.Resolved? then Resolved([Reference(members[0], pools).value] + rest.names) else rest
  }

  predicate Resolvable(row: Row, known: set<string>, pools: map<string, string>) { forall m :: m in row.members ==> Known(m, known, pools) }

  function GroupNames(groups: seq<Group>): set<string> { set g | g in groups :: g.name }

  function Emit(row: Row, known: set<string>, pools: map<string, string>): Group
    requires Resolve(row.members, known, pools).Resolved?
  {
    Group(row.name, "select", false, [], Unique(Resolve(row.members, known, pools).names), None, map[])
  }

  /** The list `groups` is `base` followed by one group per row of `done`, each built from names known before it. */
  ghost predicate Emission(base: seq<Group>, groups: seq<Group>, done: seq<Row>, pools: map<string, string>) {
    && |groups| == |base| + |done| && groups[..|base|] == base
    && forall i :: 0 <= i < |done| ==> EmittedAt(groups, |base| + i, done[i], pools)
  }

  ghost predicate EmittedAt(groups: seq<Group>, k: nat, row: Row, pools: map<string, string>)
    requires k < |groups|
  {
    && Resolvable(row, GroupNames(groups[..k]), pools)
    && groups[k] == Emit(row, GroupNames(groups[..k]), pools)
  }

  // ----- when it can succeed -----

  /** What a row needs beyond the groups present at the start. */
  function Wants(row: Row, base: set<string>, pools: map<string, string>): set<string> {
    set m | m in row.members && !m.BuiltinRef? && Reference(m, pools).Some? && Reference(m, pools).value !in base :: Reference(m, pools).value
  }

  function WantGraph(rows: seq<Row>, base: set<string>, pools: map<string, string>): (g: Graph)
    ensures g.Keys == RowNames(rows)
  {
    if rows == [] then map[]
    else
      var n := |rows| - 1;
      assert rows == rows[..n] + [rows[n]];
      WantGraph(rows[..n], base, pools)[rows[n].name := Wants(rows[n], base, pools)]
  }

  ghost predicate DistinctNames(rows: seq<Row>) { forall i, j :: 0 <= i < j < |rows| ==> rows[i].name != rows[j].name }

  lemma {:induction false} WantGraphAt(rows: seq<Row>, base: set<string>, pools: map<string, string>, row: Row)
    requires DistinctNames(rows) && row in rows
    ensures row.name in WantGraph(rows, base, pools) && WantGraph(rows, base, pools)[row.name] == Wants(row, base, pools)
  {
    var n := |rows| - 1;
    if row != rows[n] {
      var i :| 0 <= i < |rows| && rows[i] == row;
      assert rows[..n][i] == row;
      WantGraphAt(rows[..n], base, pools, row);
    }
  }

  /** Every reference leads to a builtin, a group present at the start, or an enabled row. */
  ghost predicate References(rows: seq<Row>, base: set<string>, pools: map<string, string>) {
    forall row :: row in rows ==> Resolvable(row, base + RowNames(rows), pools)
  }

  ghost predicate Solvable(rows: seq<Row>, base: set<string>, pools: map<string, string>) {
    References(rows, base, pools) && Acyclic(WantGraph(rows, base, pools))
  }

  /** With references in order and no cycle, some pending row can always be emitted. */
  lemma NeverStuck(rows: seq<Row>, base: set<string>, pools: map<string, string>, pending: seq<Row>, known: set<string>) returns (row: Row)
    requires DistinctNames(rows) && Solvable(rows, base, pools)
    requires pending != [] && (forall x :: x in pending ==> x in rows)
    requires base <= known && forall x :: x in rows && x !in pending ==> x.name in known
    ensures row in pending && Resolvable(row, known, pools)
  {
    var g := WantGraph(rows, base, pools);
    var s := RowNames(pending);
    assert pending[0] in pending && pending[0].name in s;
    var name := SinkExists(g, s);
    row :| row in pending && row.name == name;
    WantGraphAt(rows, base, pools, row);
    assert Resolvable(row, base + RowNames(rows), pools);
    forall m | m in row.members ensures Known(m, known, pools) {
      if !m.BuiltinRef? && Reference(m, pools).value !in base {
        assert Reference(m, pools).value in Wants(row, base, pools);
        var x :| x in rows && x.name == Reference(m, pools).value;
      }
    }
  }

  /** Every row of the order refers to builtins, to the groups at the start, or to rows before it. */
  ghost predicate InOrder(done: seq<Row>, base: set<string>, pools: map<string, string>) {
    forall i :: 0 <= i < |done| ==> Resolvable(done[i], base + RowNames(done[..i]), pools)
  }

  ghost predicate IsOrder(done: seq<Row>, rows: seq<Row>, base: set<string>, pools: map<string, string>) {
    multiset(done) == multiset(rows) && InOrder(done, base, pools)
  }

  /** The rows can be put in an order in which each finds what it refers to. */
  ghost predicate Orderable(rows: seq<Row>, base: set<string>, pools: map<string, string>) {
    exists done :: IsOrder(done, rows, base, pools)
  }

  lemma SameRows(a: seq<Row>, b: seq<Row>)
    requires multiset(a) == multiset(b)
    ensures forall x :: x in a <==> x in b
  {
    assert forall x :: x in a <==> x in multiset(a);
    assert forall x :: x in b <==> x in multiset(b);
  }

  /** An order of all the rows shows the references were in order and the relation acyclic. */
  lemma OrderedIsSolvable(rows: seq<Row>, base: set<string>, done: seq<Row>, pools: map<string, string>)
    requires DistinctNames(rows) && IsOrder(done, rows, base, pools)
    ensures Solvable(rows, base, pools)
  {
    SameRows(done, rows);
    forall row | row in rows ensures Resolvable(row, base + RowNames(rows), pools) {
      var i :| 0 <= i < |done| && done[i] == row;
      assert RowNames(done[..i]) <= RowNames(rows);
      KnownGrows(row, base + RowNames(done[..i]), base + RowNames(rows), pools);
    }
    OrderOfEmission(rows, base, done, pools);
  }

  lemma InOrderNext(done: seq<Row>, row: Row, base: set<string>, pools: map<string, string>)
    requires InOrder(done, base, pools) && Resolvable(row, base + RowNames(done), pools)
    ensures InOrder(done + [row], base, pools)
  {
    var longer := done + [row];
    forall i | 0 <= i < |longer| ensures Resolvable(longer[i], base + RowNames(longer[..i]), pools) {
      if i < |done| { assert longer[..i] == done[..i]; } else { assert longer[..i] == done; }
    }
  }

  /** With references in order and no cycle the rows still pending can be put behind those done. */
  lemma {:induction false} SolvableIsOrdered(rows: seq<Row>, base: set<string>, pools: map<string, string>, done: seq<Row>, pending: seq<Row>)
    requires DistinctNames(rows) && Solvable(rows, base, pools)
    requires InOrder(done, base, pools) && multiset(done) + multiset(pending) == multiset(rows)
    ensures Orderable(rows, base, pools)
    decreases |pending|
  {
    if pending == [] {
      assert IsOrder(done, rows, base, pools);
    } else {
      Remaining(rows, done, pending);
      var row := NeverStuck(rows, base, pools, pending, base + RowNames(done));
      var i :| 0 <= i < |pending| && pending[i] == row;
      RemoveAt(pending, i);
      InOrderNext(done, row, base, pools);
      assert multiset(done + [row]) == multiset(done) + multiset{row};
      SolvableIsOrdered(rows, base, pools, done + [row], pending[..i] + pending[i + 1..]);
    }
  }

  lemma Remaining(rows: seq<Row>, done: seq<Row>, pending: seq<Row>)
    requires multiset(done) + multiset(pending) == multiset(rows)
    ensures forall x :: x in rows <==> x in done || x in pending
  {
    assert forall x :: x in rows <==> x in multiset(rows);
    assert forall x :: x in done <==> x in multiset(done);
    assert forall x :: x in pending <==> x in multiset(pending);
  }

  /** Under distinct names an order exists exactly when the references are in order and there is no cycle. */
  lemma OrderableExactly(rows: seq<Row>, base: set<string>, pools: map<string, string>)
    requires DistinctNames(rows)
    ensures Orderable(rows, base, pools) <==> Solvable(rows, base, pools)
  {
    if done :| IsOrder(done, rows, base, pools) { OrderedIsSolvable(rows, base, done, pools); }
    if Solvable(rows, base, pools) {
      assert multiset([]) + multiset(rows) == multiset(rows);
      SolvableIsOrdered(rows, base, pools, [], rows);
    }
  }

  /** When nothing pending can be emitted, no order exists. */
  lemma StuckUnordered(rows: seq<Row>, base: set<string>, pools: map<string, string>, done: seq<Row>, pending: seq<Row>)
    requires multiset(done) + multiset(pending) == multiset(rows) && pending != []
    requires AllStuck(pending, base + RowNames(done), pools)
    ensures !Orderable(rows, base, pools)
  {
    Remaining(rows, done, pending);
    if order :| IsOrder(order, rows, base, pools) {
      SameRows(order, rows);
      assert pending[0] in pending;
      var i := FirstPending(order, pending);
      assert RowNames(order[..i]) <= RowNames(done);
      KnownGrows(order[i], base + RowNames(order[..i]), base + RowNames(done), pools);
    }
  }

  lemma {:induction false} FirstPending(order: seq<Row>, pending: seq<Row>) returns (i: nat)
    requires exists x :: x in order && x in pending
    ensures i < |order| && order[i] in pending && forall x :: x in order[..i] ==> x !in pending
  {
    if order[0] in pending { i := 0; } else {
      i := FirstPending(order[1..], pending);
      i := i + 1;
      assert order[..i] == [order[0]] + order[1..][..i - 1];
    }
  }

  lemma KnownGrows(row: Row, a: set<string>, b: set<string>, pools: map<string, string>)
    requires Resolvable(row, a, pools) && a <= b
    ensures Resolvable(row, b, pools)
  {
    forall m | m in row.members ensures Known(m, b, pools) { assert Known(m, a, pools); }
  }

  lemma GroupNamesStep(groups: seq<Group>, g: Group)
    ensures GroupNames(groups + [g]) == GroupNames(groups) + {g.name}
  {
    assert forall x :: x in groups + [g] <==> x in groups || x == g;
  }

  lemma RowNamesStep(rows: seq<Row>, row: Row)
    ensures RowNames(rows + [row]) == RowNames(rows) + {row.name}
  {
    assert forall x :: x in rows + [row] <==> x in rows || x == row;
  }

  lemma EmittedName(base: seq<Group>, groups: seq<Group>, done: seq<Row>, pools: map<string, string>, i: nat)
    requires Emission(base, groups, done, pools) && i < |done|
    ensures groups[|base| + i].name == done[i].name
  {
    assert EmittedAt(groups, |base| + i, done[i], pools);
  }

  lemma NamesStep(known: set<string>, groups: seq<Group>, n: nat, done: seq<Row>, j: nat)
    requires n < |groups| && j < |done| && groups[n].name == done[j].name
    requires GroupNames(groups[..n]) == known + RowNames(done[..j])
    ensures GroupNames(groups[..n + 1]) == known + RowNames(done[..j + 1])
  {
    TakeStep(groups, n);
    TakeStep(done, j);
    GroupNamesStep(groups[..n], groups[n]);
    RowNamesStep(done[..j], done[j]);
  }

  lemma {:induction false} NamesSoFar(base: seq<Group>, groups: seq<Group>, done: seq<Row>, pools: map<string, string>, k: nat)
    requires Emission(base, groups, done, pools) && k <= |done|
    ensures GroupNames(groups[..|base| + k]) == GroupNames(base) + RowNames(done[..k])
  {
    if k > 0 {
      NamesSoFar(base, groups, done, pools, k - 1);
      EmittedName(base, groups, done, pools, k - 1);
      NamesStep(GroupNames(base), groups, |base| + k - 1, done, k - 1);
    } else {
      assert groups[..|base| + k] == base && done[..k] == [];
    }
  }

  lemma ResolvableThen(base: seq<Group>, groups: seq<Group>, done: seq<Row>, pools: map<string, string>, i: nat)
    requires Emission(base, groups, done, pools) && i < |done|
    ensures Resolvable(done[i], GroupNames(base) + RowNames(done[..i]), pools)
  {
    assert EmittedAt(groups, |base| + i, done[i], pools);
    NamesSoFar(base, groups, done, pools, i);
  }

  ghost function NamesInOrder(done: seq<Row>): seq<string> { seq(|done|, i requires 0 <= i < |done| => done[i].name) }

  lemma {:induction false} DistinctOrder(rows: seq<Row>, done: seq<Row>)
    requires DistinctNames(rows) && multiset(done) == multiset(rows)
    ensures NoDuplicates(NamesInOrder(done))
  {
    forall i, j | 0 <= i < j < |done| ensures done[i].name != done[j].name {
      TwoInMultiset(done, i, j);
      assert done[i] in multiset(rows) && done[j] in multiset(rows);
      if done[i].name == done[j].name {
        var a :| 0 <= a < |rows| && rows[a] == done[i];
        var b :| 0 <= b < |rows| && rows[b] == done[j];
        assert a == b;
        OneInMultiset(rows, a);
      }
    }
  }

  lemma TwoInMultiset(s: seq<Row>, i: nat, j: nat)
    requires i < j < |s|
    ensures s[i] == s[j] ==> multiset(s)[s[i]] >= 2
  {
    assert s == s[..i] + [s[i]] + s[i + 1..j] + [s[j]] + s[j + 1..];
  }

  lemma OneInMultiset(s: seq<Row>, i: nat)
    requires DistinctNames(s) && i < |s|
    ensures multiset(s)[s[i]] == 1
  {
    assert s == s[..i] + [s[i]] + s[i + 1..];
    assert s[i] !in s[..i] && s[i] !in s[i + 1..];
  }

  lemma WantsBefore(base: set<string>, done: seq<Row>, pools: map<string, string>, i: nat)
    requires i < |done| && Resolvable(done[i], base + RowNames(done[..i]), pools)
    ensures forall y :: y in Wants(done[i], base, pools) ==> y in NamesInOrder(done)[..i]
  {
    forall y | y in Wants(done[i], base, pools) ensures y in NamesInOrder(done)[..i] {
      var m :| m in done[i].members && !m.BuiltinRef? && Reference(m, pools).Some? && Reference(m, pools).value == y && y !in base;
      assert Known(m, base + RowNames(done[..i]), pools);
      assert y in RowNames(done[..i]);
      var x :| x in done[..i] && x.name == y;
      var j :| 0 <= j < i && done[..i][j] == x;
      assert NamesInOrder(done)[..i][j] == y;
    }
  }

  lemma OrderOfEmission(rows: seq<Row>, base: set<string>, done: seq<Row>, pools: map<string, string>)
    requires DistinctNames(rows) && IsOrder(done, rows, base, pools)
    ensures Acyclic(WantGraph(rows, base, pools))
  {
    var g, order := WantGraph(rows, base, pools), NamesInOrder(done);
    SameRows(done, rows);
    DistinctOrder(rows, done);
    forall i | 0 <= i < |order| ensures order[i] in g && forall y :: y in g[order[i]] ==> y in order[..i] {
      assert done[i] in done;
      WantGraphAt(rows, base, pools, done[i]);
      WantsBefore(base, done, pools, i);
    }
    forall x | x in g ensures x in order {
      var row :| row in rows && row.name == x;
      var i :| 0 <= i < |done| && done[i] == row;
      assert order[i] == x;
    }
    TopologicalIsAcyclic(g, order);
  }

  /** An emission lists its rows in order. */
  lemma EmissionInOrder(base: seq<Group>, groups: seq<Group>, done: seq<Row>, pools: map<string, string>)
    requires Emission(base, groups, done, pools)
    ensures InOrder(done, GroupNames(base), pools)
  {
    forall i | 0 <= i < |done| ensures Resolvable(done[i], GroupNames(base) + RowNames(done[..i]), pools) {
      ResolvableThen(base, groups, done, pools, i);
    }
  }

  // ----- the order of the passes -----

  /** The names of the rows emitted ahead of position `n` of a pass. */
  ghost function Ahead(emitted: seq<Row>, at: seq<nat>, n: nat): set<string> {
    set i | 0 <= i < |emitted| && i < |at| && at[i] < n :: emitted[i].name
  }

  /**
   A pass takes the pending rows in their order; it emits a row that finds all it refers to among
   the known groups and the rows it has emitted, and leaves one that does not.
   */
  ghost predicate PassAt(pending: seq<Row>, known: set<string>, emitted: seq<Row>, at: seq<nat>, left: seq<Row>, over: seq<nat>, pools: map<string, string>) {
    && Increasing(at) && Increasing(over) && ReadAt(pending, at, emitted) && ReadAt(pending, over, left)
    && (forall k: nat :: k < |pending| <==> k in at || k in over) && (forall k: nat :: k in at ==> k !in over)
    && (forall i :: 0 <= i < |emitted| ==> Resolvable(emitted[i], known + Ahead(emitted, at, at[i]), pools))
    && (forall i :: 0 <= i < |left| ==> !Resolvable(left[i], known + Ahead(emitted, at, over[i]), pools))
  }

  ghost predicate OnePass(pending: seq<Row>, known: set<string>, emitted: seq<Row>, left: seq<Row>, pools: map<string, string>) {
    exists at, over :: PassAt(pending, known, emitted, at, left, over, pools)
  }

  /** After `n` passes, each of which emitted something, `done` is emitted in this order and `left` pending. */
  ghost predicate Passed(rows: seq<Row>, base: set<string>, done: seq<Row>, left: seq<Row>, n: nat, pools: map<string, string>)
    decreases n, 0
  {
    if n == 0 then done == [] && left == rows else PassedThen(rows, base, done, left, n - 1, pools)
  }

  ghost predicate PassedThen(rows: seq<Row>, base: set<string>, done: seq<Row>, left: seq<Row>, n: nat, pools: map<string, string>)
    decreases n, 1
  {
    exists before, pending, emitted :: Passed(rows, base, before, pending, n, pools) && LastPass(base, before, pending, emitted, done, left, pools)
  }

  ghost predicate LastPass(base: set<string>, before: seq<Row>, pending: seq<Row>, emitted: seq<Row>, done: seq<Row>, left: seq<Row>, pools: map<string, string>) {
    emitted != [] && done == before + emitted && OnePass(pending, base + RowNames(before), emitted, left, pools)
  }

  lemma PassedOn(rows: seq<Row>, base: set<string>, before: seq<Row>, pending: seq<Row>, n: nat, emitted: seq<Row>, left: seq<Row>, pools: map<string, string>)
    requires Passed(rows, base, before, pending, n, pools) && emitted != [] && OnePass(pending, base + RowNames(before), emitted, left, pools)
    ensures Passed(rows, base, before + emitted, left, n + 1, pools)
  {
    assert LastPass(base, before, pending, emitted, before + emitted, left, pools);
    assert PassedThen(rows, base, before + emitted, left, n, pools);
  }

  lemma AheadSnoc(emitted: seq<Row>, at: seq<nat>, row: Row, k: nat, n: nat)
    requires |emitted| == |at| && n <= k
    ensures Ahead(emitted + [row], at + [k], n) == Ahead(emitted, at, n)
  {
    var more, places := emitted + [row], at + [k];
    forall x | x in Ahead(more, places, n) ensures x in Ahead(emitted, at, n) {
      var i :| 0 <= i < |more| && places[i] < n && more[i].name == x;
      assert i < |at| && emitted[i].name == x;
    }
    forall x | x in Ahead(emitted, at, n) ensures x in Ahead(more, places, n) {
      var i :| 0 <= i < |emitted| && at[i] < n && emitted[i].name == x;
      assert more[i] == emitted[i] && places[i] == at[i];
    }
  }

  lemma AheadAll(emitted: seq<Row>, at: seq<nat>, n: nat)
    requires |emitted| == |at| && forall k :: k in at ==> k < n
    ensures Ahead(emitted, at, n) == RowNames(emitted)
  {
    forall x | x in RowNames(emitted) ensures x in Ahead(emitted, at, n) {
      var row :| row in emitted && row.name == x;
      var i :| 0 <= i < |emitted| && emitted[i] == row;
      assert at[i] in at;
    }
  }

  lemma ReadMore(s: seq<Row>, x: Row, at: seq<nat>, r: seq<Row>)
    requires ReadAt(s, at, r)
    ensures ReadAt(s + [x], at, r) && ReadAt(s + [x], at + [|s|], r + [x])
  {
  }

  lemma PlacesMore(n: nat, at: seq<nat>, over: seq<nat>)
    requires Increasing(at) && (forall k: nat :: k < n <==> k in at || k in over) && forall k: nat :: k in at ==> k !in over
    ensures Increasing(at + [n]) && (forall k: nat :: k < n + 1 <==> k in at + [n] || k in over)
    ensures (forall k: nat :: k in at + [n] ==> k !in over) && (forall k: nat :: k < n + 1 <==> k in at || k in over + [n])
    ensures forall k: nat :: k in at ==> k !in over + [n]
  {
    forall i | 0 <= i < |at| ensures at[i] < n { assert at[i] in at; }
    assert n !in over && n !in at;
  }

  lemma PassEmits(pending: seq<Row>, row: Row, known: set<string>, emitted: seq<Row>, at: seq<nat>, left: seq<Row>, over: seq<nat>, pools: map<string, string>)
    requires PassAt(pending, known, emitted, at, left, over, pools) && Resolvable(row, known + RowNames(emitted), pools)
    ensures PassAt(pending + [row], known, emitted + [row], at + [|pending|], left, over, pools)
  {
    var n, more, places := |pending|, emitted + [row], at + [|pending|];
    ReadMore(pending, row, at, emitted);
    ReadMore(pending, row, over, left);
    PlacesMore(n, at, over);
    AheadAll(emitted, at, n);
    forall i | 0 <= i < |more| ensures Resolvable(more[i], known + Ahead(more, places, places[i]), pools) {
      if i < |at| { assert at[i] in at; }
      AheadSnoc(emitted, at, row, n, places[i]);
      if i < |at| { assert more[i] == emitted[i] && places[i] == at[i]; }
    }
    forall i | 0 <= i < |left| ensures !Resolvable(left[i], known + Ahead(more, places, over[i]), pools) {
      assert over[i] in over;
      AheadSnoc(emitted, at, row, n, over[i]);
    }
  }

  lemma PassSkips(pending: seq<Row>, row: Row, known: set<string>, emitted: seq<Row>, at: seq<nat>, left: seq<Row>, over: seq<nat>, pools: map<string, string>)
    requires PassAt(pending, known, emitted, at, left, over, pools) && !Resolvable(row, known + RowNames(emitted), pools)
    ensures PassAt(pending + [row], known, emitted, at, left + [row], over + [|pending|], pools)
  {
    var n := |pending|;
    ReadMore(pending, row, at, emitted);
    ReadMore(pending, row, over, left);
    PlacesMore(n, over, at);
    PlacesMore(n, at, over);
    AheadAll(emitted, at, n);
  }

  /** The groups known after an emission. */
  lemma KnownAfter(base: seq<Group>, groups: seq<Group>, done: seq<Row>, pools: map<string, string>)
    requires Emission(base, groups, done, pools)
    ensures GroupNames(groups) == GroupNames(base) + RowNames(done)
  {
    NamesSoFar(base, groups, done, pools, |done|);
    assert groups[..|groups|] == groups && done[..|done|] == done;
  }

  // ----- the loop -----

  /** One pass over the pending rows: emits what it can, keeps the rest. */
  method Round(config: Config, pending: seq<Row>, known: set<string>, pools: map<string, string>)
    returns (r: Result<seq<Row>>, known': set<string>, ghost emitted: seq<Row>)
    requires known == GroupNames(config.groups)
    modifies config`groups
    ensures known' == GroupNames(config.groups)
    ensures Emission(old(config.groups), config.groups, emitted, pools)
    ensures r.Ok? ==> multiset(emitted) + multiset(r.value) == multiset(pending)
    ensures r.Ok? && emitted == [] ==> known' == known && AllStuck(r.value, known, pools)
    ensures r.Ok? ==> OnePass(pending, known, emitted, r.value, pools)
    ensures r.Raised? ==> exists row :: row in pending && Malformed in row.members
  {
    ghost var base := config.groups;
    var unresolved: seq<Row> := [];
    emitted, known' := [], known;
    ghost var at: seq<nat>, over: seq<nat> := [], [];
    for k := 0 to |pending|
      invariant PassAt(pending[..k], known, emitted, at, unresolved, over, pools)
      invariant known' == GroupNames(config.groups) && Emission(base, config.groups, emitted, pools)
      invariant multiset(emitted) + multiset(unresolved) == multiset(pending[..k])
      invariant emitted == [] ==> known' == known && AllStuck(unresolved, known, pools)
    {
      var row := pending[k];
      SortedOut(pending, k, emitted, unresolved);
      KnownAfter(base, config.groups, emitted, pools);
      var emits;
      emits, known' := TryRow(config, row, base, emitted, known', pools);
      if emits.Raised? {
        assert row in pending;
        return Raised(emits.reason), known', emitted;
      }
      PassStep(pending, k, known, emitted, at, unresolved, over, pools);
      if emits.value { emitted, at := emitted + [row], at + [k]; } else { unresolved, over := unresolved + [row], over + [k]; }
    }
    assert pending[..|pending|] == pending;
    r := Ok(unresolved);
  }

  /** A pending row joins either the emitted or the unresolved ones. */
  lemma SortedOut(pending: seq<Row>, k: nat, emitted: seq<Row>, unresolved: seq<Row>)
    requires k < |pending| && multiset(emitted) + multiset(unresolved) == multiset(pending[..k])
    ensures multiset(emitted + [pending[k]]) + multiset(unresolved) == multiset(pending[..k + 1])
    ensures multiset(emitted) + multiset(unresolved + [pending[k]]) == multiset(pending[..k + 1])
  {
    TakeStep(pending, k);
  }

  lemma PassStep(pending: seq<Row>, k: nat, known: set<string>, emitted: seq<Row>, at: seq<nat>, left: seq<Row>, over: seq<nat>, pools: map<string, string>)
    requires k < |pending| && PassAt(pending[..k], known, emitted, at, left, over, pools)
    ensures if Resolvable(pending[k], known + RowNames(emitted), pools) then PassAt(pending[..k + 1], known, emitted + [pending[k]], at + [k], left, over, pools)
            else PassAt(pending[..k + 1], known, emitted, at, left + [pending[k]], over + [k], pools)
  {
    TakeStep(pending, k);
    if Resolvable(pending[k], known + RowNames(emitted), pools) {
      PassEmits(pending[..k], pending[k], known, emitted, at, left, over, pools);
    } else {
      PassSkips(pending[..k], pending[k], known, emitted, at, left, over, pools);
    }
  }

  /** Emits the row once all its members resolve. */
  method TryRow(config: Config, row: Row, ghost base: seq<Group>, ghost done: seq<Row>, known: set<string>, pools: map<string, string>)
    returns (emits: Result<bool>, known': set<string>)
    requires known == GroupNames(config.groups) && Emission(base, config.groups, done, pools)
    modifies config`groups
    ensures known' == GroupNames(config.groups)
    ensures emits == Ok(true) ==> Emission(base, config.groups, done + [row], pools)
    ensures emits != Ok(true) ==> config.groups == old(config.groups) && known' == known
    ensures emits == Ok(true) ==> Resolvable(row, known, pools)
    ensures emits == Ok(false) ==> !Resolvable(row, known, pools)
    ensures emits.Raised? ==> Malformed in row.members
  {
    var resolution := Resolve(row.members, known, pools);
    if resolution.Invalid? { return Raised("contains an invalid member"), known; }
    if resolution.Missing? { return Ok(false), known; }
    var group := Group(row.name, "select", false, [], Unique(resolution.names), None, map[]);
    EmissionStep(base, config.groups, done, row, pools);
    GroupNamesStep(config.groups, group);
    config.groups := config.groups + [group];
    return Ok(true), known + {row.name};
  }

  predicate AllStuck(rows: seq<Row>, known: set<string>, pools: map<string, string>) {
    forall row :: row in rows ==> !Resolvable(row, known, pools)
  }

  lemma EmissionStep(base: seq<Group>, groups: seq<Group>, done: seq<Row>, row: Row, pools: map<string, string>)
    requires Emission(base, groups, done, pools) && Resolvable(row, GroupNames(groups), pools)
    ensures Emission(base, groups + [Emit(row, GroupNames(groups), pools)], done + [row], pools)
  {
    var longer := groups + [Emit(row, GroupNames(groups), pools)];
    assert longer[..|base|] == groups[..|base|];
    forall i | 0 <= i <= |done| ensures EmittedAt(longer, |base| + i, (done + [row])[i], pools) {
      assert longer[..|base| + i] == groups[..|base| + i];
      if i < |done| { assert EmittedAt(groups, |base| + i, done[i], pools); }
      else { assert groups[..|base| + i] == groups; }
    }
  }

  lemma EmissionJoin(base: seq<Group>, mid: seq<Group>, groups: seq<Group>, a: seq<Row>, b: seq<Row>, pools: map<string, string>)
    requires Emission(base, mid, a, pools) && Emission(mid, groups, b, pools)
    ensures Emission(base, groups, a + b, pools)
  {
    assert groups[..|base|] == mid[..|base|];
    forall i | 0 <= i < |a + b| ensures EmittedAt(groups, |base| + i, (a + b)[i], pools) {
      if i < |a| {
        assert EmittedAt(mid, |base| + i, a[i], pools);
        assert groups[..|base| + i] == mid[..|base| + i];
      } else {
        assert EmittedAt(groups, |mid| + (i - |a|), b[i - |a|], pools);
      }
    }
  }

  /** What is emitted and pending between two passes. */
  ghost predicate Between(rows: seq<Row>, base: seq<Group>, groups: seq<Group>, done: seq<Row>, pending: seq<Row>, n: nat, pools: map<string, string>) {
    && Emission(base, groups, done, pools) && multiset(done) + multiset(pending) == multiset(rows)
    && Passed(rows, GroupNames(base), done, pending, n, pools)
  }

  lemma PassEnds(rows: seq<Row>, base: seq<Group>, mid: seq<Group>, groups: seq<Group>, done: seq<Row>, pending: seq<Row>, n: nat,
                 emitted: seq<Row>, left: seq<Row>, pools: map<string, string>)
    requires Between(rows, base, mid, done, pending, n, pools) && Emission(mid, groups, emitted, pools)
    requires multiset(emitted) + multiset(left) == multiset(pending) && OnePass(pending, GroupNames(mid), emitted, left, pools) && emitted != []
    ensures Between(rows, base, groups, done + emitted, left, n + 1, pools)
  {
    KnownAfter(base, mid, done, pools);
    EmissionJoin(base, mid, groups, done, emitted, pools);
    PassedOn(rows, GroupNames(base), done, pending, n, emitted, left, pools);
    assert multiset(done + emitted) == multiset(done) + multiset(emitted);
  }

  /** A pass that has to emit something. */
  method Pass(config: Config, pending: seq<Row>, known: set<string>, pools: map<string, string>,
              ghost rows: seq<Row>, ghost base: seq<Group>, ghost done: seq<Row>, ghost n: nat)
    returns (r: Result<seq<Row>>, known': set<string>, ghost done': seq<Row>)
    requires known == GroupNames(config.groups) && Between(rows, base, config.groups, done, pending, n, pools) && pending != []
    modifies config`groups
    ensures known' == GroupNames(config.groups)
    ensures r.Raised? ==> !Orderable(rows, GroupNames(base), pools)
    ensures r.Ok? ==> |r.value| < |pending| && Between(rows, base, config.groups, done', r.value, n + 1, pools)
  {
    ghost var mid := config.groups;
    ghost var emitted: seq<Row>;
    r, known', emitted := Round(config, pending, known, pools);
    done' := done + emitted;
    if r.Raised? {
      MalformedUnordered(rows, GroupNames(base), pools, pending, done);
      return;
    }
    assert |multiset(emitted)| + |multiset(r.value)| == |multiset(pending)|;
    if |r.value| == |pending| {
      StuckHere(rows, base, mid, pools, pending, r.value, done);
      r := Raised("missing or cyclic references");
      return;
    }
    PassEnds(rows, base, mid, config.groups, done, pending, n, emitted, r.value, pools);
  }

  lemma NothingPassed(rows: seq<Row>, base: seq<Group>, pools: map<string, string>)
    ensures Between(rows, base, base, [], rows, 0, pools)
  {
    assert base[..|base|] == base;
  }

  lemma AllPassed(rows: seq<Row>, base: seq<Group>, groups: seq<Group>, done: seq<Row>, n: nat, pools: map<string, string>)
    requires Between(rows, base, groups, done, [], n, pools)
    ensures Orderable(rows, GroupNames(base), pools) && multiset(done) == multiset(rows)
    ensures Emission(base, groups, done, pools) && Passed(rows, GroupNames(base), done, [], n, pools)
  {
    EmissionInOrder(base, groups, done, pools);
    assert multiset(done) == multiset(rows) by { assert multiset(done) + multiset([]) == multiset(done); }
    assert IsOrder(done, rows, GroupNames(base), pools);
  }

  /**
   Succeeds exactly when the enabled rows have an order in which each finds what it refers to; it
   then emits every enabled row once, each after everything it refers to.
   */
  method AddExternalGroups(config: Config, specs: seq<Row>, modules: map<string, bool>, pools: map<string, string>)
    returns (r: Result<nat>, ghost done: seq<Row>)
    modifies config`groups
    ensures r.Ok? <==> Orderable(Enabled(specs, modules), GroupNames(old(config.groups)), pools)
    ensures r.Ok? ==> multiset(done) == multiset(Enabled(specs, modules)) && Emission(old(config.groups), config.groups, done, pools)
    ensures r.Ok? ==> Passed(Enabled(specs, modules), GroupNames(old(config.groups)), done, [], r.value, pools)
  {
    ghost var base := config.groups;
    ghost var rows := Enabled(specs, modules);
    var pending := Enabled(specs, modules);
    var known := GroupNames(config.groups);
    var rounds := 0;
    done := [];
    NothingPassed(rows, base, pools);
    while pending != []
      invariant known == GroupNames(config.groups) && Between(rows, base, config.groups, done, pending, rounds, pools)
      decreases |pending|
    {
      var unresolved;
      unresolved, known, done := Pass(config, pending, known, pools, rows, base, done, rounds);
      if unresolved.Raised? { return Raised(unresolved.reason), done; }
      pending, rounds := unresolved.value, rounds + 1;
    }
    AllPassed(rows, base, config.groups, done, rounds, pools);
    return Ok(rounds), done;
  }

  lemma {:induction false} EnabledDistinct(specs: seq<Row>, modules: map<string, bool>)
    requires DistinctNames(specs)
    ensures DistinctNames(Enabled(specs, modules))
  {
    if specs != [] {
      EnabledDistinct(specs[1..], modules);
      var rest := Enabled(specs[1..], modules);
      forall x | x in rest ensures x.name != specs[0].name {
        var i :| 0 <= i < |specs[1..]| && specs[1..][i] == x;
        assert specs[i + 1] == x;
      }
      assert forall i :: 0 <= i < |rest| ==> rest[i] in rest;
    }
  }

  lemma MalformedUnordered(rows: seq<Row>, base: set<string>, pools: map<string, string>, pending: seq<Row>, done: seq<Row>)
    requires multiset(done) + multiset(pending) == multiset(rows)
    requires exists row :: row in pending && Malformed in row.members
    ensures !Orderable(rows, base, pools)
  {
    var row :| row in pending && Malformed in row.members;
    Remaining(rows, done, pending);
    if order :| IsOrder(order, rows, base, pools) { SameRows(order, rows); }
  }

  lemma StuckHere(rows: seq<Row>, base: seq<Group>, groups: seq<Group>, pools: map<string, string>, pending: seq<Row>,
                  unresolved: seq<Row>, done: seq<Row>)
    requires Emission(base, groups, done, pools) && pending != []
    requires multiset(done) + multiset(pending) == multiset(rows) && multiset(unresolved) == multiset(pending)
    requires AllStuck(unresolved, GroupNames(groups), pools)
    ensures !Orderable(rows, GroupNames(base), pools)
  {
    NamesSoFar(base, groups, done, pools, |done|);
    assert groups[..|groups|] == groups && done[..|done|] == done;
    SameRows(unresolved, pending);
    StuckUnordered(rows, GroupNames(base), pools, done, pending);
  }

  // ----- the two components together -----

  /**
   When the cycle check accepts the declared rows, pool anchors are present from the start, and every
   reference of an enabled row leads somewhere, the fixpoint cannot fail.
   */
  lemma AcceptedIsSolvable(specs: seq<Row>, modules: map<string, bool>, base: set<string>, pools: map<string, string>)
    requires DistinctNames(specs) && Acyclic(Dependencies(specs, RowNames(specs)))
    requires forall p :: p in pools ==> pools[p] in base
    requires References(Enabled(specs, modules), base, pools)
    ensures Solvable(Enabled(specs, modules), base, pools) && Orderable(Enabled(specs, modules), base, pools)
  {
    var rows := Enabled(specs, modules);
    EnabledDistinct(specs, modules);
    var g, h := Dependencies(specs, RowNames(specs)), WantGraph(rows, base, pools);
    forall x | x in h ensures x in g && h[x] <= g[x] {
      var row :| row in rows && row.name == x;
      WantGraphAt(rows, base, pools, row);
      DependenciesAt(specs, RowNames(specs), row);
      forall y | y in h[x] ensures y in g[x] {
        var m :| m in row.members && !m.BuiltinRef? && Reference(m, pools).Some? && Reference(m, pools).value == y && y !in base;
        assert Known(m, base + RowNames(rows), pools);
        var other :| other in rows && other.name == y;
        assert m.GroupRef?;
      }
    }
    SubgraphAcyclic(g, h);
    OrderableExactly(rows, base, pools);
  }

  lemma {:induction false} DependenciesAt(rows: seq<Row>, names: set<string>, row: Row)
    requires DistinctNames(rows) && row in rows
    ensures row.name in Dependencies(rows, names) && Dependencies(rows, names)[row.name] == GroupRefs(row.members, names)
  {
    var n := |rows| - 1;
    if row != rows[n] {
      var i :| 0 <= i < |rows| && rows[i] == row;
      assert rows[..n][i] == row;
      DependenciesAt(rows[..n], names, row);
    }
  }

  /** In an emitted list every group refers only to builtins and to groups strictly before it. */
  lemma EmittedRefersBack(base: seq<Group>, groups: seq<Group>, done: seq<Row>, pools: map<string, string>, i: nat, reference: string)
    requires Emission(base, groups, done, pools) && i < |done| && reference in groups[|base| + i].proxies
    ensures (exists m :: m in done[i].members && m == BuiltinRef(reference)) || reference in GroupNames(groups[..|base| + i])
  {
    assert EmittedAt(groups, |base| + i, done[i], pools);
    var known := GroupNames(groups[..|base| + i]);
    ResolvedFrom(done[i].members, known, pools, reference);
  }

  /** The name a member stands for. */
  ghost predicate Names(m: Member, pools: map<string, string>, x: string) {
    match m
    case BuiltinRef(name) => x == name
    case GroupRef(name) => x == name
    case PoolRef(pool) => pool in pools && x == pools[pool]
    case Malformed => false
  }

  /** A visible selector under the row's name, over the names of its members, repetitions dropped and the order kept. */
  ghost predicate BuiltFrom(g: Group, row: Row, pools: map<string, string>) {
    && g.name == row.name && g.kind == "select" && !g.hidden && g.uses == [] && g.filter.None? && g.test == map[]
    && exists names, at :: && |names| == |row.members| && (forall i :: 0 <= i < |names| ==> Names(row.members[i], pools, names[i]))
                           && FirstsAt(names, at) && ReadAt(names, at, g.proxies)
  }

  lemma {:induction false} ResolvedExactly(members: seq<Member>, known: set<string>, pools: map<string, string>)
    requires Resolve(members, known, pools).Resolved?
    ensures var names := Resolve(members, known, pools).names;
            |names| == |members| && forall i :: 0 <= i < |names| ==> Names(members[i], pools, names[i])
  {
    if members != [] {
      assert members[0] in members && Known(members[0], known, pools);
      ResolvedExactly(members[1..], known, pools);
      var names := Resolve(members, known, pools).names;
      forall i | 0 <= i < |names| ensures Names(members[i], pools, names[i]) {
        if i > 0 { assert members[i] == members[1..][i - 1] && names[i] == names[1..][i - 1]; }
      }
    }
  }

  /** What is emitted for a row. */
  lemma EmittedExactly(base: seq<Group>, groups: seq<Group>, done: seq<Row>, pools: map<string, string>, i: nat)
    requires Emission(base, groups, done, pools) && i < |done|
    ensures BuiltFrom(groups[|base| + i], done[i], pools)
  {
    assert EmittedAt(groups, |base| + i, done[i], pools);
    var known := GroupNames(groups[..|base| + i]);
    ResolvedExactly(done[i].members, known, pools);
    var at := UniqueExactly(Resolve(done[i].members, known, pools).names);
  }

  /** A row without a module, or with one that is on. */
  predicate IsOn(row: Row, modules: map<string, bool>) { row.enabledBy.None? || (row.enabledBy.value in modules && modules[row.enabledBy.value]) }

  lemma {:induction false} EnabledInOrder(specs: seq<Row>, modules: map<string, bool>)
    ensures Sifted(specs, (row: Row) => IsOn(row, modules), Enabled(specs, modules))
  {
    var keep := (row: Row) => IsOn(row, modules);
    if specs == [] {
      SiftedEmpty(keep);
    } else {
      EnabledInOrder(specs[1..], modules);
      SiftedCons(specs[0], specs[1..], keep, Enabled(specs[1..], modules));
      assert specs == [specs[0]] + specs[1..];
    }
  }

  lemma {:induction false} ResolvedFrom(members: seq<Member>, known: set<string>, pools: map<string, string>, name: string)
    requires Resolve(members, known, pools).Resolved? && name in Resolve(members, known, pools).names
    ensures (exists m :: m in members && m == BuiltinRef(name)) || name in known
  {
    if name == Reference(members[0], pools).value {
      assert members[0] in members && Known(members[0], known, pools);
    } else {
      assert forall m :: m in members[1..] ==> m in members;
      ResolvedFrom(members[1..], known, pools, name);
    }
  }
}
