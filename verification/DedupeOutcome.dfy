/** What deduplication leaves, field by field. */
module DedupeOutcome {
  import opened Ordering
  import opened Deduplicate

  // ----- when the error policy raises -----

  lemma {:induction false} DistinctPermuted(a: seq<Node>, b: seq<Node>)
    requires multiset(a) == multiset(b) && Distinct(a)
    ensures Distinct(b)
    decreases |a|
  {
    if a == [] {
      assert |multiset(b)| == |b|;
    } else {
      var k := |a| - 1;
      var i := RemoveLast(a, b);
      var rest := b[..i] + b[i + 1..];
      assert Distinct(a[..k]);
      DistinctPermuted(a[..k], rest);
      forall n | n in rest ensures n.fingerprint != b[i].fingerprint {
        assert n in multiset(rest) && n in multiset(a[..k]);
        var j :| 0 <= j < k && a[..k][j] == n;
        assert a[j].fingerprint != a[k].fingerprint;
      }
      DistinctAround(b, i, rest);
    }
  }

  lemma DistinctAround(b: seq<Node>, i: nat, rest: seq<Node>)
    requires i < |b| && rest == b[..i] + b[i + 1..] && Distinct(rest) && forall n :: n in rest ==> n.fingerprint != b[i].fingerprint
    ensures Distinct(b)
  {
    forall x, y | 0 <= x < y < |b| ensures b[x].fingerprint != b[y].fingerprint {
      if x == i {
        assert rest[y - 1] == b[y];
      } else if y == i {
        assert rest[x] == b[x];
      } else {
        assert rest[if x < i then x else x - 1] == b[x] && rest[if y < i then y else y - 1] == b[y];
      }
    }
  }

  /** The error policy raises exactly when two nodes share a fingerprint. */
  lemma RaisesExactly(nodes: seq<Node>, l: Locale)
    ensures Distinct(Sort(nodes, NodeLeq(l))) <==> forall i, j :: 0 <= i < j < |nodes| ==> nodes[i].fingerprint != nodes[j].fingerprint
  {
    NodeLeqTotal(l);
    SortSorts(nodes, NodeLeq(l));
    if Distinct(nodes) { DistinctPermuted(nodes, Sort(nodes, NodeLeq(l))); }
    if Distinct(Sort(nodes, NodeLeq(l))) { DistinctPermuted(Sort(nodes, NodeLeq(l)), nodes); }
  }

  // ----- which node is kept -----

  /** Ingested earlier, else from a source whose name comes first, else with a name that comes first, case aside, else with a fingerprint that does. */
  ghost predicate NoLater(a: Node, b: Node, l: Locale) {
    || a.order < b.order
    || (a.order == b.order && a.id != b.id && Leq(a.id, b.id))
    || (a.order == b.order && a.id == b.id && l.fold(a.name) != l.fold(b.name) && Leq(l.fold(a.name), l.fold(b.name)))
    || (a.order == b.order && a.id == b.id && l.fold(a.name) == l.fold(b.name) && Leq(a.fingerprint, b.fingerprint))
  }

  lemma NoLaterExactly(a: Node, b: Node, l: Locale)
    ensures KeyLeq(NodeKeyOf(a, l), NodeKeyOf(b, l)) <==> NoLater(a, b, l)
  {
  }

  /** A kept node is one of the input, its occurrences aside, and no node with its fingerprint comes before it. */
  lemma KeptIsFirst(nodes: seq<Node>, l: Locale, r: Node, n: Node)
    requires Total(l.before) && r in Deduplicated(nodes, l) && n in nodes && n.fingerprint == r.fingerprint
    ensures NoLater(r, n, l) && exists m :: m in nodes && r == m.(occurrences := r.occurrences)
  {
    KeptIsLeast(nodes, l, r, n);
    NoLaterExactly(r, n, l);
  }

  /** The kept nodes are in that order. */
  lemma KeptInOrder(nodes: seq<Node>, l: Locale, i: nat, j: nat)
    requires i < j < |Deduplicated(nodes, l)|
    ensures NoLater(Deduplicated(nodes, l)[i], Deduplicated(nodes, l)[j], l)
  {
    var ordered := Sort(nodes, NodeLeq(l));
    NodeLeqTotal(l);
    SortSorts(nodes, NodeLeq(l));
    MergedAscends(ordered, l);
    SortedFirst(Merged(ordered, l), i, j, l);
    NoLaterExactly(Merged(ordered, l)[i], Merged(ordered, l)[j], l);
  }

  // ----- which occurrences it has -----

  /** One of the node's occurrences, which are its own data when it lists none. */
  ghost predicate Has(n: Node, o: Occurrence) {
    if n.occurrences != [] then o in n.occurrences
    else && o.order == n.order && o.id == n.id && o.display == n.display && o.name == n.name && o.country == n.country
         && o.capabilities == n.capabilities && o.cost == n.cost && o.uses == n.uses && o.countries == n.countries
  }

  /** The same occurrence up to the display name and the case of the name. */
  ghost predicate Alike(a: Occurrence, b: Occurrence, l: Locale) {
    && a.order == b.order && a.id == b.id && l.fold(a.name) == l.fold(b.name) && a.country == b.country
    && a.capabilities == b.capabilities && a.cost == b.cost && a.uses == b.uses && a.countries == b.countries
  }

  lemma HasExactly(n: Node, o: Occurrence)
    ensures o in Occurrences(n) <==> Has(n, o)
  {
    if n.occurrences == [] {
      var own := Occurrence(n.order, n.id, n.display, n.name, n.country, n.capabilities, n.cost, n.uses, n.countries);
      assert Occurrences(n) == [own];
      if Has(n, o) { assert o == own; }
    }
  }

  lemma AlikeExactly(a: Occurrence, b: Occurrence, l: Locale)
    ensures KeyOf(a, l) == KeyOf(b, l) <==> Alike(a, b, l)
  {
  }

  /** No occurrence of the input is forgotten: the kept node has one like it. */
  lemma NothingForgotten(nodes: seq<Node>, l: Locale, r: Node, n: Node, o: Occurrence)
    requires Total(l.before) && r in Deduplicated(nodes, l) && n in nodes && n.fingerprint == r.fingerprint && Has(n, o)
    ensures exists q :: Has(r, q) && Alike(q, o, l)
  {
    KeptIsLeast(nodes, l, r, n);
    HasExactly(n, o);
    assert KeyOf(o, l) in Keys(Occurrences(r), l);
    var q :| q in Occurrences(r) && KeyOf(q, l) == KeyOf(o, l);
    HasExactly(r, q);
    AlikeExactly(q, o, l);
  }

  lemma {:induction false} LastOfEachFrom(items: seq<Occurrence>, l: Locale, q: Occurrence)
    requires q in LastOfEach(items, l)
    ensures exists i :: 0 <= i < |items| && items[i] == q && forall j :: i < j < |items| ==> KeyOf(items[j], l) != KeyOf(q, l)
  {
    var rest := items[1..];
    if q == items[0] && KeyOf(items[0], l) !in Keys(rest, l) {
      forall j | 0 < j < |items| ensures KeyOf(items[j], l) != KeyOf(q, l) { assert rest[j - 1] == items[j] && rest[j - 1] in rest; }
    } else {
      LastOfEachFrom(rest, l, q);
      var i :| 0 <= i < |rest| && rest[i] == q && forall j :: i < j < |rest| ==> KeyOf(rest[j], l) != KeyOf(q, l);
      assert items[i + 1] == q;
      forall j | i + 1 < j < |items| ensures KeyOf(items[j], l) != KeyOf(q, l) { assert rest[j - 1] == items[j]; }
    }
  }

  /** Of occurrences that are alike, merging two nodes keeps the last one, those of the second node coming last. */
  lemma LastIsKept(a: Node, b: Node, l: Locale, q: Occurrence)
    requires Total(l.before) && q in MergeOccurrences(a, b, l)
    ensures var items := Occurrences(a) + Occurrences(b);
            exists i :: 0 <= i < |items| && items[i] == q && forall j :: i < j < |items| ==> !Alike(items[j], q, l)
  {
    var items := Occurrences(a) + Occurrences(b);
    MergedFrom(a, b, l, q);
    LastOfEachFrom(items, l, q);
    var i :| 0 <= i < |items| && items[i] == q && forall j :: i < j < |items| ==> KeyOf(items[j], l) != KeyOf(q, l);
    forall j | i < j < |items| ensures !Alike(items[j], q, l) { AlikeExactly(items[j], q, l); }
  }

  lemma MergedFrom(a: Node, b: Node, l: Locale, q: Occurrence)
    requires Total(l.before) && q in MergeOccurrences(a, b, l)
    ensures q in LastOfEach(Occurrences(a) + Occurrences(b), l)
  {
    var last := LastOfEach(Occurrences(a) + Occurrences(b), l);
    ByKeyTotal(l);
    SortSorts(last, ByKey(l));
    assert q in multiset(Sort(last, ByKey(l))) && q in multiset(last);
  }

  /** Merging two nodes invents no occurrence. */
  lemma MergedHas(a: Node, b: Node, l: Locale, q: Occurrence)
    requires Total(l.before) && q in MergeOccurrences(a, b, l)
    ensures Has(a, q) || Has(b, q)
  {
    MergedFrom(a, b, l, q);
    LastOfEachFrom(Occurrences(a) + Occurrences(b), l, q);
    HasExactly(a, q);
    HasExactly(b, q);
  }

  lemma {:induction false} OrderedHas(ordered: seq<Node>, l: Locale, r: Node, q: Occurrence)
    requires Total(l.before) && r in Merged(ordered, l) && Has(r, q)
    ensures exists n :: n in ordered && n.fingerprint == r.fingerprint && Has(n, q)
  {
    var k := |ordered| - 1;
    var before, n := Merged(ordered[..k], l), ordered[k];
    assert ordered == ordered[..k] + [n];
    if r in before {
      OrderedHas(ordered[..k], l, r, q);
    } else if Deduplicate.Has(before, n.fingerprint) {
      var i := IndexOf(before, n.fingerprint);
      assert r == before[i].(occurrences := MergeOccurrences(before[i], n, l));
      MergedKeys(before[i], n, l);
      MergedHas(before[i], n, l, q);
      if Has(before[i], q) { OrderedHas(ordered[..k], l, before[i], q); }
    }
  }

  /** And every occurrence of a kept node is, display name and all, one of an input node with its fingerprint. */
  lemma NothingInvented(nodes: seq<Node>, l: Locale, r: Node, q: Occurrence)
    requires Total(l.before) && r in Deduplicated(nodes, l) && Has(r, q)
    ensures exists n :: n in nodes && n.fingerprint == r.fingerprint && Has(n, q)
  {
    var ordered := Sort(nodes, NodeLeq(l));
    NodeLeqTotal(l);
    SortSorts(nodes, NodeLeq(l));
    OrderedHas(ordered, l, r, q);
    var n :| n in ordered && n.fingerprint == r.fingerprint && Has(n, q);
    assert n in multiset(ordered) && n in multiset(nodes);
  }
}
