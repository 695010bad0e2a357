/** Merging nodes with the same fingerprint, whatever order the sources deliver them in. */
module Deduplicate {
  import opened Results
  import opened Ordering

  datatype Occurrence = Occurrence(order: int, id: string, display: string, name: string, country: string, capabilities: set<string>,
                                   cost: string, uses: set<string>, countries: set<string>)

  /** Sorted tuples of strings stand for the sets they list. */
  datatype OccurrenceKey = OccurrenceKey(order: int, id: string, name: string, country: string, capabilities: set<string>,
                                         cost: string, uses: set<string>, countries: set<string>)

  datatype Node = Node(order: int, id: string, display: string, name: string, proxy: string, country: string, capabilities: set<string>,
                       cost: string, uses: set<string>, countries: set<string>, fingerprint: string, occurrences: seq<Occurrence>)

  /** Case folding, and the order of Python's tuples on occurrence keys. */
  datatype Locale = Locale(fold: string -> string, before: (OccurrenceKey, OccurrenceKey) -> bool)

  function KeyOf(o: Occurrence, l: Locale): OccurrenceKey {
    OccurrenceKey(o.order, o.id, l.fold(o.name), o.country, o.capabilities, o.cost, o.uses, o.countries)
  }

  function Occurrences(n: Node): (r: seq<Occurrence>)
    ensures r != []
  {
    if n.occurrences != [] then n.occurrences
    else [Occurrence(n.order, n.id, n.display, n.name, n.country, n.capabilities, n.cost, n.uses, n.countries)]
  }

  function Keys(items: seq<Occurrence>, l: Locale): set<OccurrenceKey> { set o | o in items :: KeyOf(o, l) }

  // ----- stable sorting -----

  function Insert<T>(x: T, s: seq<T>, le: (T, T) -> bool): seq<T> {
    if s == [] || le(x, s[0]) then [x] + s else [s[0]] + Insert(x, s[1..], le)
  }

  /** Python's stable `sorted`: equal elements keep their order. */
  function Sort<T>(s: seq<T>, le: (T, T) -> bool): seq<T> {
    if s == [] then [] else Insert(s[0], Sort(s[1..], le), le)
  }

  ghost predicate Total<T(!new)>(le: (T, T) -> bool) {
    (forall a, b :: le(a, b) || le(b, a)) && forall a, b, c :: le(a, b) && le(b, c) ==> le(a, c)
  }

  ghost predicate Ascending<T>(s: seq<T>, le: (T, T) -> bool) { forall i, j :: 0 <= i < j < |s| ==> le(s[i], s[j]) }

  lemma {:induction false} InsertSorts<T(!new)>(x: T, s: seq<T>, le: (T, T) -> bool)
    requires Total(le) && Ascending(s, le)
    ensures multiset(Insert(x, s, le)) == multiset([x]) + multiset(s) && Ascending(Insert(x, s, le), le)
  {
    if s == [] || le(x, s[0]) {
      var r := [x] + s;
      forall i, j | 0 <= i < j < |r| ensures le(r[i], r[j]) { if i == 0 && j > 1 { assert le(s[0], s[j - 1]); } }
    } else {
      InsertSorts(x, s[1..], le);
      var tail := Insert(x, s[1..], le);
      assert s == [s[0]] + s[1..];
      forall y | y in tail ensures le(s[0], y) {
        assert y in multiset(tail);
        if y != x { var k :| 0 <= k < |s[1..]| && s[1..][k] == y; }
      }
      var r := [s[0]] + tail;
      forall i, j | 0 <= i < j < |r| ensures le(r[i], r[j]) { if i == 0 { assert r[j] == tail[j - 1] && tail[j - 1] in tail; } }
    }
  }

  lemma {:induction false} SortSorts<T(!new)>(s: seq<T>, le: (T, T) -> bool)
    requires Total(le)
    ensures multiset(Sort(s, le)) == multiset(s) && Ascending(Sort(s, le), le)
  {
    if s != [] {
      SortSorts(s[1..], le);
      InsertSorts(s[0], Sort(s[1..], le), le);
      assert s == [s[0]] + s[1..];
    }
  }

  lemma {:induction false} SortKeeps<T(!new)>(s: seq<T>, le: (T, T) -> bool)
    requires Ascending(s, le)
    ensures Sort(s, le) == s
  {
    if s != [] {
      SortKeeps(s[1..], le);
      assert s == [s[0]] + s[1..];
      if |s| > 1 { assert le(s[0], s[1]); }
    }
  }

  lemma HeadsEqual<T(!new)>(a: seq<T>, b: seq<T>, le: (T, T) -> bool)
    requires Ascending(a, le) && Ascending(b, le) && multiset(a) == multiset(b) && a != [] && b != []
    requires forall x, y :: le(x, y) && le(y, x) ==> x == y
    ensures a[0] == b[0]
  {
    assert a[0] in multiset(b) && b[0] in multiset(a);
    var i :| 0 <= i < |b| && b[i] == a[0];
    var j :| 0 <= j < |a| && a[j] == b[0];
    if i > 0 && j > 0 { assert le(b[0], b[i]) && le(a[0], a[j]); }
  }

  lemma TailsEqual<T>(a: seq<T>, b: seq<T>)
    requires a != [] && b != [] && a[0] == b[0] && multiset(a) == multiset(b)
    ensures multiset(a[1..]) == multiset(b[1..])
  {
    assert a == [a[0]] + a[1..] && b == [b[0]] + b[1..];
    assert multiset(a) - multiset{a[0]} == multiset(a[1..]) && multiset(b) - multiset{a[0]} == multiset(b[1..]);
  }

  /** Ascending sequences of the same elements are equal when the order tells elements apart. */
  lemma {:induction false} AscendingUnique<T(!new)>(a: seq<T>, b: seq<T>, le: (T, T) -> bool)
    requires Ascending(a, le) && Ascending(b, le) && multiset(a) == multiset(b)
    requires forall x, y :: le(x, y) && le(y, x) ==> x == y
    ensures a == b
  {
    assert |multiset(a)| == |a| && |multiset(b)| == |b|;
    if a != [] {
      HeadsEqual(a, b, le);
      TailsEqual(a, b);
      AscendingUnique(a[1..], b[1..], le);
      assert a == [a[0]] + a[1..] && b == [b[0]] + b[1..];
    }
  }

  // ----- merging occurrences -----

  function LastOfEach(items: seq<Occurrence>, l: Locale): seq<Occurrence> {
    if items == [] then []
    else
      var rest := LastOfEach(items[1..], l);
      if KeyOf(items[0], l) in Keys(items[1..], l) then rest else [items[0]] + rest
  }

  lemma KeysCons(o: Occurrence, items: seq<Occurrence>, l: Locale)
    ensures Keys([o] + items, l) == {KeyOf(o, l)} + Keys(items, l)
  {
    assert forall x :: x in [o] + items <==> x == o || x in items;
  }

  lemma KeysAppend(a: seq<Occurrence>, b: seq<Occurrence>, l: Locale)
    ensures Keys(a + b, l) == Keys(a, l) + Keys(b, l)
  {
    assert forall x :: x in a + b <==> x in a || x in b;
  }

  lemma KeysPermuted(a: seq<Occurrence>, b: seq<Occurrence>, l: Locale)
    requires multiset(a) == multiset(b)
    ensures Keys(a, l) == Keys(b, l)
  {
    assert forall x :: x in a <==> x in multiset(a);
    assert forall x :: x in b <==> x in multiset(b);
  }

  lemma {:induction false} LastOfEachKeys(items: seq<Occurrence>, l: Locale)
    ensures Keys(LastOfEach(items, l), l) == Keys(items, l)
  {
    if items != [] {
      LastOfEachKeys(items[1..], l);
      KeysCons(items[0], items[1..], l);
      KeysCons(items[0], LastOfEach(items[1..], l), l);
      assert items == [items[0]] + items[1..];
    }
  }

  function ByKey(l: Locale): (Occurrence, Occurrence) -> bool { (a: Occurrence, b: Occurrence) => l.before(KeyOf(a, l), KeyOf(b, l)) }

  function MergeOccurrences(a: Node, b: Node, l: Locale): seq<Occurrence> {
    Sort(LastOfEach(Occurrences(a) + Occurrences(b), l), ByKey(l))
  }

  /** Merging keeps exactly the keys of both sides, in order. */
  lemma MergedKeys(a: Node, b: Node, l: Locale)
    requires Total(l.before)
    ensures Keys(MergeOccurrences(a, b, l), l) == Keys(Occurrences(a), l) + Keys(Occurrences(b), l)
    ensures MergeOccurrences(a, b, l) != [] && Ascending(MergeOccurrences(a, b, l), ByKey(l))
  {
    var items := Occurrences(a) + Occurrences(b);
    var last := LastOfEach(items, l);
    ByKeyTotal(l);
    SortSorts(last, ByKey(l));
    KeysPermuted(Sort(last, ByKey(l)), last, l);
    LastOfEachKeys(items, l);
    KeysAppend(Occurrences(a), Occurrences(b), l);
    assert KeyOf(items[0], l) in Keys(items, l);
  }

  lemma ByKeyTotal(l: Locale)
    requires Total(l.before)
    ensures Total(ByKey(l))
  {
    var le := ByKey(l);
    forall a, b ensures le(a, b) || le(b, a) { assert l.before(KeyOf(a, l), KeyOf(b, l)) || l.before(KeyOf(b, l), KeyOf(a, l)); }
    forall a, b, c | le(a, b) && le(b, c) ensures le(a, c) {
      assert l.before(KeyOf(a, l), KeyOf(b, l)) && l.before(KeyOf(b, l), KeyOf(c, l));
    }
  }

  // ----- node order -----

  datatype NodeKey = NodeKey(order: int, id: string, name: string, fingerprint: string)

  function NodeKeyOf(n: Node, l: Locale): NodeKey { NodeKey(n.order, n.id, l.fold(n.name), n.fingerprint) }

  /** The order of Python's tuples. */
  predicate KeyLeq(a: NodeKey, b: NodeKey) {
    if a.order != b.order then a.order < b.order
    else if a.id != b.id then Leq(a.id, b.id)
    else if a.name != b.name then Leq(a.name, b.name)
    else Leq(a.fingerprint, b.fingerprint)
  }

  lemma KeyLeqTotal()
    ensures Total(KeyLeq) && forall a, b :: KeyLeq(a, b) && KeyLeq(b, a) ==> a == b
  {
    forall a, b ensures KeyLeq(a, b) || KeyLeq(b, a) {
      LeqTotal(a.id, b.id);
      LeqTotal(a.name, b.name);
      LeqTotal(a.fingerprint, b.fingerprint);
    }
    forall a, b | KeyLeq(a, b) && KeyLeq(b, a) ensures a == b { KeyAntisymmetric(a, b); }
    forall a, b, c | KeyLeq(a, b) && KeyLeq(b, c) ensures KeyLeq(a, c) { KeyTransitive(a, b, c); }
  }

  lemma KeyAntisymmetric(a: NodeKey, b: NodeKey)
    requires KeyLeq(a, b) && KeyLeq(b, a)
    ensures a == b
  {
    if a.id != b.id { LeqAntisymmetric(a.id, b.id); }
    else if a.name != b.name { LeqAntisymmetric(a.name, b.name); }
    else { LeqAntisymmetric(a.fingerprint, b.fingerprint); }
  }

  lemma KeyTransitive(a: NodeKey, b: NodeKey, c: NodeKey)
    requires KeyLeq(a, b) && KeyLeq(b, c)
    ensures KeyLeq(a, c)
  {
    if a.order == b.order == c.order {
      if a.id != b.id && b.id != c.id {
        LeqTransitive(a.id, b.id, c.id);
        if a.id == c.id { LeqAntisymmetric(a.id, b.id); }
      } else if a.id == b.id == c.id {
        if a.name != b.name && b.name != c.name {
          LeqTransitive(a.name, b.name, c.name);
          if a.name == c.name { LeqAntisymmetric(a.name, b.name); }
        } else if a.name == b.name == c.name {
          LeqTransitive(a.fingerprint, b.fingerprint, c.fingerprint);
        }
      }
    }
  }

  function NodeLeq(l: Locale): (Node, Node) -> bool { (a: Node, b: Node) => KeyLeq(NodeKeyOf(a, l), NodeKeyOf(b, l)) }

  lemma NodeLeqTotal(l: Locale)
    ensures Total(NodeLeq(l))
  {
    KeyLeqTotal();
    var le := NodeLeq(l);
    forall a, b ensures le(a, b) || le(b, a) { assert KeyLeq(NodeKeyOf(a, l), NodeKeyOf(b, l)) || KeyLeq(NodeKeyOf(b, l), NodeKeyOf(a, l)); }
    forall a, b, c | le(a, b) && le(b, c) ensures le(a, c) {
      assert KeyLeq(NodeKeyOf(a, l), NodeKeyOf(b, l)) && KeyLeq(NodeKeyOf(b, l), NodeKeyOf(c, l));
    }
  }

  // ----- deduplication -----

  function Fingerprints(nodes: seq<Node>): seq<string> { seq(|nodes|, i requires 0 <= i < |nodes| => nodes[i].fingerprint) }

  /** A node of that fingerprint is among `nodes`. */
  predicate Has(nodes: seq<Node>, fingerprint: string) {
    nodes != [] && (nodes[|nodes| - 1].fingerprint == fingerprint || Has(nodes[..|nodes| - 1], fingerprint))
  }

  lemma {:induction false} HasMeaning(nodes: seq<Node>, fingerprint: string)
    ensures Has(nodes, fingerprint) <==> exists i :: 0 <= i < |nodes| && nodes[i].fingerprint == fingerprint
  {
    if nodes != [] { HasMeaning(nodes[..|nodes| - 1], fingerprint); }
  }

  lemma {:induction false} HasListed(nodes: seq<Node>, fingerprint: string)
    ensures Has(nodes, fingerprint) <==> fingerprint in Fingerprints(nodes)
  {
    if nodes != [] {
      var k := |nodes| - 1;
      HasListed(nodes[..k], fingerprint);
      assert Fingerprints(nodes) == Fingerprints(nodes[..k]) + [nodes[k].fingerprint];
    }
  }

  function IndexOf(result: seq<Node>, fingerprint: string): (i: nat)
    requires Has(result, fingerprint)
    ensures i < |result| && result[i].fingerprint == fingerprint
  {
    if result[|result| - 1].fingerprint == fingerprint then |result| - 1 else IndexOf(result[..|result| - 1], fingerprint)
  }

  /** One node of the sorted list: kept, or merged into the kept node of its fingerprint. */
  function Take(result: seq<Node>, n: Node, l: Locale): seq<Node> {
    if Has(result, n.fingerprint) then
      var i := IndexOf(result, n.fingerprint);
      result[i := result[i].(occurrences := MergeOccurrences(result[i], n, l))]
    else result + [n]
  }

  function Merged(ordered: seq<Node>, l: Locale): seq<Node> {
    if ordered == [] then [] else Take(Merged(ordered[..|ordered| - 1], l), ordered[|ordered| - 1], l)
  }

  predicate Distinct(nodes: seq<Node>) { forall i, j :: 0 <= i < j < |nodes| ==> nodes[i].fingerprint != nodes[j].fingerprint }

  lemma TakeKeeps(result: seq<Node>, n: Node, l: Locale)
    requires Distinct(result)
    ensures Distinct(Take(result, n, l))
    ensures Fingerprints(Take(result, n, l)) == if n.fingerprint in Fingerprints(result) then Fingerprints(result) else Fingerprints(result) + [n.fingerprint]
  {
    HasListed(result, n.fingerprint);
    if n.fingerprint !in Fingerprints(result) {
      forall i | 0 <= i < |result| ensures result[i].fingerprint != n.fingerprint { assert Fingerprints(result)[i] in Fingerprints(result); }
    }
  }

  /** The fingerprints of the result are those of the sorted input, each at its first occurrence. */
  lemma {:induction false} MergedFingerprints(ordered: seq<Node>, l: Locale)
    ensures Distinct(Merged(ordered, l)) && Fingerprints(Merged(ordered, l)) == Unique(Fingerprints(ordered))
  {
    if ordered != [] {
      var k := |ordered| - 1;
      MergedFingerprints(ordered[..k], l);
      TakeKeeps(Merged(ordered[..k], l), ordered[k], l);
      assert Fingerprints(ordered)[..k] == Fingerprints(ordered[..k]);
      assert Fingerprints(ordered)[k] == ordered[k].fingerprint;
    }
  }

  /** The occurrence keys of all nodes with one fingerprint. */
  ghost function AllKeys(nodes: seq<Node>, fingerprint: string, l: Locale): set<OccurrenceKey> {
    if nodes == [] then {}
    else
      var k := |nodes| - 1;
      AllKeys(nodes[..k], fingerprint, l) + if nodes[k].fingerprint == fingerprint then Keys(Occurrences(nodes[k]), l) else {}
  }

  /** `i` is the first place of its fingerprint. */
  ghost predicate FirstOfKind(ordered: seq<Node>, i: nat) {
    i < |ordered| && forall j :: 0 <= j < i ==> ordered[j].fingerprint != ordered[i].fingerprint
  }

  /** `r` is the first node of its fingerprint, with the occurrence keys of all of them. */
  ghost predicate Represents(ordered: seq<Node>, r: Node, l: Locale) {
    && (exists i: nat :: FirstOfKind(ordered, i) && r == ordered[i].(occurrences := r.occurrences))
    && Keys(Occurrences(r), l) == AllKeys(ordered, r.fingerprint, l)
  }

  lemma {:induction false} NoKeys(nodes: seq<Node>, fingerprint: string, l: Locale)
    requires forall i :: 0 <= i < |nodes| ==> nodes[i].fingerprint != fingerprint
    ensures AllKeys(nodes, fingerprint, l) == {}
  {
    if nodes != [] { NoKeys(nodes[..|nodes| - 1], fingerprint, l); }
  }

  lemma FirstStays(ordered: seq<Node>, n: Node, i: nat)
    requires FirstOfKind(ordered, i)
    ensures FirstOfKind(ordered + [n], i) && (ordered + [n])[i] == ordered[i]
  {
  }

  lemma RepresentsOther(ordered: seq<Node>, n: Node, r: Node, l: Locale)
    requires Represents(ordered, r, l) && n.fingerprint != r.fingerprint
    ensures Represents(ordered + [n], r, l)
  {
    var i: nat :| FirstOfKind(ordered, i) && r == ordered[i].(occurrences := r.occurrences);
    FirstStays(ordered, n, i);
    assert (ordered + [n])[..|ordered|] == ordered;
  }

  lemma RepresentsMerged(ordered: seq<Node>, n: Node, r: Node, l: Locale)
    requires Represents(ordered, r, l) && n.fingerprint == r.fingerprint && Total(l.before)
    ensures Represents(ordered + [n], r.(occurrences := MergeOccurrences(r, n, l)), l)
  {
    var i: nat :| FirstOfKind(ordered, i) && r == ordered[i].(occurrences := r.occurrences);
    FirstStays(ordered, n, i);
    assert (ordered + [n])[..|ordered|] == ordered;
    MergedKeys(r, n, l);
    var m := r.(occurrences := MergeOccurrences(r, n, l));
    assert m == (ordered + [n])[i].(occurrences := m.occurrences);
    assert Occurrences(m) == m.occurrences;
  }

  lemma RepresentsNew(ordered: seq<Node>, n: Node, l: Locale)
    requires forall i :: 0 <= i < |ordered| ==> ordered[i].fingerprint != n.fingerprint
    ensures Represents(ordered + [n], n, l)
  {
    assert FirstOfKind(ordered + [n], |ordered|) && n == (ordered + [n])[|ordered|].(occurrences := n.occurrences);
    NoKeys(ordered, n.fingerprint, l);
    assert (ordered + [n])[..|ordered|] == ordered;
  }

  lemma InFingerprints(nodes: seq<Node>, f: string)
    ensures f in Fingerprints(nodes) <==> exists i :: 0 <= i < |nodes| && nodes[i].fingerprint == f
  {
    if i :| 0 <= i < |nodes| && nodes[i].fingerprint == f { assert Fingerprints(nodes)[i] == f; }
  }

  /** Each kept node is the first of its fingerprint in sorted order, and holds the occurrences of all of them. */
  lemma {:induction false} MergedRepresents(ordered: seq<Node>, l: Locale, r: Node)
    requires Total(l.before) && r in Merged(ordered, l)
    ensures Represents(ordered, r, l)
  {
    var k := |ordered| - 1;
    var before, n := Merged(ordered[..k], l), ordered[k];
    assert ordered == ordered[..k] + [n];
    MergedFingerprints(ordered[..k], l);
    InFingerprints(ordered[..k], n.fingerprint);
    HasListed(before, n.fingerprint);
    if Has(before, n.fingerprint) {
      var i := IndexOf(before, n.fingerprint);
      if r == before[i].(occurrences := MergeOccurrences(before[i], n, l)) {
        MergedRepresents(ordered[..k], l, before[i]);
        RepresentsMerged(ordered[..k], n, before[i], l);
      } else {
        var j :| 0 <= j < |before| && before[j] == r && j != i;
        MergedRepresents(ordered[..k], l, r);
        RepresentsOther(ordered[..k], n, r, l);
      }
    } else if r in before {
      InFingerprints(before, n.fingerprint);
      MergedRepresents(ordered[..k], l, r);
      RepresentsOther(ordered[..k], n, r, l);
    } else {
      RepresentsNew(ordered[..k], n, l);
    }
  }

  lemma TakeCount(result: seq<Node>, n: Node, l: Locale)
    ensures |Take(result, n, l)| == |result| + if Has(result, n.fingerprint) then 0 else 1
  {
  }

  /** Everything is kept only when nothing is a duplicate. */
  lemma {:induction false} MergedCount(ordered: seq<Node>, l: Locale)
    requires |Merged(ordered, l)| == |ordered|
    ensures Distinct(ordered)
  {
    if ordered != [] {
      var k := |ordered| - 1;
      TakeCount(Merged(ordered[..k], l), ordered[k], l);
      MergedBound(ordered[..k], l);
      MergedCount(ordered[..k], l);
      SeenBefore(ordered, k, l);
      DistinctSnoc(ordered, k);
      assert ordered[..k + 1] == ordered;
    }
  }

  lemma MergedHas(nodes: seq<Node>, l: Locale, fingerprint: string)
    ensures Has(Merged(nodes, l), fingerprint) <==> Has(nodes, fingerprint)
  {
    MergedFingerprints(nodes, l);
    HasListed(Merged(nodes, l), fingerprint);
    HasListed(nodes, fingerprint);
  }

  /** A fingerprint is among the kept ones exactly when it occurred before. */
  lemma SeenBefore(ordered: seq<Node>, k: nat, l: Locale)
    requires k < |ordered|
    ensures Has(Merged(ordered[..k], l), ordered[k].fingerprint) <==> exists i :: 0 <= i < k && ordered[i].fingerprint == ordered[k].fingerprint
  {
    MergedHas(ordered[..k], l, ordered[k].fingerprint);
    HasMeaning(ordered[..k], ordered[k].fingerprint);
  }

  /** What is missing from the result never shrinks as more nodes are taken. */
  lemma {:induction false} GapGrows(ordered: seq<Node>, k: nat, l: Locale)
    requires k <= |ordered|
    ensures k - |Merged(ordered[..k], l)| <= |ordered| - |Merged(ordered, l)|
    decreases |ordered| - k
  {
    if k < |ordered| {
      MergedStep(ordered, k, l);
      TakeCount(Merged(ordered[..k], l), ordered[k], l);
      GapGrows(ordered, k + 1, l);
    } else {
      assert ordered[..k] == ordered;
    }
  }

  /** A repeated fingerprint makes the result shorter than the input. */
  lemma Repeated(ordered: seq<Node>, k: nat, l: Locale)
    requires k < |ordered| && Has(Merged(ordered[..k], l), ordered[k].fingerprint)
    ensures |Merged(ordered, l)| < |ordered|
  {
    MergedStep(ordered, k, l);
    TakeCount(Merged(ordered[..k], l), ordered[k], l);
    MergedBound(ordered[..k], l);
    GapGrows(ordered, k + 1, l);
  }

  lemma {:induction false} MergedBound(ordered: seq<Node>, l: Locale)
    ensures |Merged(ordered, l)| <= |ordered|
  {
    if ordered != [] {
      MergedBound(ordered[..|ordered| - 1], l);
      TakeCount(Merged(ordered[..|ordered| - 1], l), ordered[|ordered| - 1], l);
    }
  }

  lemma {:induction false} MergedDistinct(ordered: seq<Node>, l: Locale)
    requires Distinct(ordered)
    ensures Merged(ordered, l) == ordered
  {
    if ordered != [] {
      var k := |ordered| - 1;
      MergedDistinct(ordered[..k], l);
      HasMeaning(ordered[..k], ordered[k].fingerprint);
      assert ordered == ordered[..k] + [ordered[k]];
    }
  }

  function Deduplicated(nodes: seq<Node>, l: Locale): seq<Node> { Merged(Sort(nodes, NodeLeq(l)), l) }

  /** Under the "error" policy the first duplicate raises. */
  method DeduplicateNodes(nodes: seq<Node>, policy: string, l: Locale) returns (r: Result<seq<Node>>, duplicates: nat)
    ensures r.Raised? <==> policy == "error" && !Distinct(Sort(nodes, NodeLeq(l)))
    ensures r.Ok? ==> r.value == Deduplicated(nodes, l) && |r.value| + duplicates == |nodes|
  {
    NodeLeqTotal(l);
    SortSorts(nodes, NodeLeq(l));
    var ordered := Sort(nodes, NodeLeq(l));
    assert |multiset(ordered)| == |ordered| && |multiset(nodes)| == |nodes|;
    r, duplicates := MergeOrdered(ordered, policy == "error", l);
    if |Merged(ordered, l)| == |ordered| { MergedCount(ordered, l); }
    if Distinct(ordered) { MergedDistinct(ordered, l); }
  }

  /** The kept nodes with the two dictionaries over them, and the duplicates met so far. */
  datatype Table = Table(result: seq<Node>, seen: map<string, Node>, positions: map<string, nat>, duplicates: nat)

  /** What the dictionaries know about the nodes kept so far. */
  ghost predicate Indexed(result: seq<Node>, seen: map<string, Node>, positions: map<string, nat>) {
    && (forall f :: f in seen <==> f in positions)
    && (forall f :: f in positions ==> positions[f] < |result| && result[positions[f]] == seen[f] && seen[f].fingerprint == f)
    && (forall i :: 0 <= i < |result| ==> result[i].fingerprint in positions && positions[result[i].fingerprint] == i)
  }

  lemma IndexedReplace(result: seq<Node>, seen: map<string, Node>, positions: map<string, nat>, merged: Node)
    requires Indexed(result, seen, positions) && merged.fingerprint in positions
    ensures Indexed(result[positions[merged.fingerprint] := merged], seen[merged.fingerprint := merged], positions)
  {
  }

  lemma IndexedPush(result: seq<Node>, seen: map<string, Node>, positions: map<string, nat>, n: Node)
    requires Indexed(result, seen, positions) && n.fingerprint !in seen
    ensures Indexed(result + [n], seen[n.fingerprint := n], positions[n.fingerprint := |result|])
  {
  }

  lemma DistinctSnoc(ordered: seq<Node>, k: nat)
    requires k < |ordered|
    ensures Distinct(ordered[..k + 1]) <==> Distinct(ordered[..k]) && forall i :: 0 <= i < k ==> ordered[i].fingerprint != ordered[k].fingerprint
    ensures Distinct(ordered) ==> Distinct(ordered[..k + 1])
  {
    TakeStep(ordered, k);
    var longer := ordered[..k + 1];
    assert longer[k] == ordered[k];
    if Distinct(longer) {
      forall i | 0 <= i < k ensures ordered[i].fingerprint != ordered[k].fingerprint { assert longer[i] == ordered[i]; }
      forall i, j | 0 <= i < j < k ensures ordered[..k][i].fingerprint != ordered[..k][j].fingerprint { assert longer[i] == ordered[i] && longer[j] == ordered[j]; }
    }
  }

  lemma MergedStep(ordered: seq<Node>, k: nat, l: Locale)
    requires k < |ordered|
    ensures Merged(ordered[..k + 1], l) == Take(Merged(ordered[..k], l), ordered[k], l)
  {
    TakeStep(ordered, k);
  }

  ghost predicate Progress(ordered: seq<Node>, k: nat, t: Table, strict: bool, l: Locale)
    requires k <= |ordered|
  {
    t.result == Merged(ordered[..k], l) && Indexed(t.result, t.seen, t.positions) && |t.result| + t.duplicates == k && (strict ==> t.duplicates == 0)
  }

  method MergeOrdered(ordered: seq<Node>, strict: bool, l: Locale) returns (r: Result<seq<Node>>, duplicates: nat)
    ensures r.Raised? ==> strict && |Merged(ordered, l)| < |ordered|
    ensures r.Ok? ==> r.value == Merged(ordered, l) && |r.value| + duplicates == |ordered| && (strict ==> duplicates == 0)
  {
    var t := Table([], map[], map[], 0);
    assert ordered[..0] == [];
    for k := 0 to |ordered|
      invariant Progress(ordered, k, t, strict, l)
    {
      var next := TakeNext(ordered, k, t, strict, l);
      if next.Raised? { return Raised(next.reason), t.duplicates; }
      t := next.value;
    }
    assert ordered[..|ordered|] == ordered;
    return Ok(t.result), t.duplicates;
  }

  /** One turn of the loop: a known fingerprint raises or is merged in place, a new one is kept. */
  method TakeNext(ordered: seq<Node>, k: nat, t: Table, strict: bool, l: Locale) returns (r: Result<Table>)
    requires k < |ordered| && Progress(ordered, k, t, strict, l)
    ensures r.Ok? ==> Progress(ordered, k + 1, r.value, strict, l)
    ensures r.Raised? ==> strict && |Merged(ordered, l)| < |ordered|
  {
    var n := ordered[k];
    MergedStep(ordered, k, l);
    Indexing(t.result, t.seen, t.positions, n.fingerprint);
    if n.fingerprint in t.seen {
      if strict {
        Repeated(ordered, k, l);
        return Raised("duplicate node fingerprint");
      }
      var previous := t.seen[n.fingerprint];
      var merged := previous.(occurrences := MergeOccurrences(previous, n, l));
      IndexedReplace(t.result, t.seen, t.positions, merged);
      return Ok(Table(t.result[t.positions[n.fingerprint] := merged], t.seen[n.fingerprint := merged], t.positions, t.duplicates + 1));
    }
    IndexedPush(t.result, t.seen, t.positions, n);
    return Ok(Table(t.result + [n], t.seen[n.fingerprint := n], t.positions[n.fingerprint := |t.result|], t.duplicates));
  }

  /** The dictionaries find the kept node of a fingerprint exactly when there is one. */
  lemma Indexing(result: seq<Node>, seen: map<string, Node>, positions: map<string, nat>, f: string)
    requires Indexed(result, seen, positions)
    ensures f in seen <==> Has(result, f)
    ensures f in seen ==> IndexOf(result, f) == positions[f]
  {
    HasMeaning(result, f);
  }

  // ----- guarantees -----

  lemma SortedFirst(ordered: seq<Node>, i: nat, j: nat, l: Locale)
    requires Ascending(ordered, NodeLeq(l)) && i <= j < |ordered|
    ensures KeyLeq(NodeKeyOf(ordered[i], l), NodeKeyOf(ordered[j], l))
  {
    if i == j { KeyLeqTotal(); } else { assert NodeLeq(l)(ordered[i], ordered[j]); }
  }

  /** Every fingerprint of the input has one kept node; its key is the least of the nodes with that fingerprint, its occurrence keys are all of theirs. */
  lemma KeptIsLeast(nodes: seq<Node>, l: Locale, r: Node, n: Node)
    requires Total(l.before) && r in Deduplicated(nodes, l) && n in nodes && n.fingerprint == r.fingerprint
    ensures KeyLeq(NodeKeyOf(r, l), NodeKeyOf(n, l)) && Keys(Occurrences(n), l) <= Keys(Occurrences(r), l)
    ensures exists m :: m in nodes && r == m.(occurrences := r.occurrences)
  {
    var ordered := Sort(nodes, NodeLeq(l));
    NodeLeqTotal(l);
    SortSorts(nodes, NodeLeq(l));
    MergedRepresents(ordered, l, r);
    var i: nat :| FirstOfKind(ordered, i) && r == ordered[i].(occurrences := r.occurrences);
    assert n in multiset(nodes) && n in multiset(ordered);
    var j :| 0 <= j < |ordered| && ordered[j] == n;
    SortedFirst(ordered, i, j, l);
    assert ordered[i] in multiset(ordered) && ordered[i] in multiset(nodes);
    AllKeysHave(ordered, r.fingerprint, l, j);
  }

  lemma {:induction false} AllKeysHave(nodes: seq<Node>, fingerprint: string, l: Locale, j: nat)
    requires j < |nodes| && nodes[j].fingerprint == fingerprint
    ensures Keys(Occurrences(nodes[j]), l) <= AllKeys(nodes, fingerprint, l)
  {
    if j < |nodes| - 1 { AllKeysHave(nodes[..|nodes| - 1], fingerprint, l, j); }
  }

  /** No occurrence key is invented: each belongs to some input node with that fingerprint. */
  lemma KeysAreInputs(nodes: seq<Node>, l: Locale, r: Node, key: OccurrenceKey)
    requires Total(l.before) && r in Deduplicated(nodes, l) && key in Keys(Occurrences(r), l)
    ensures exists n :: n in nodes && n.fingerprint == r.fingerprint && key in Keys(Occurrences(n), l)
  {
    var ordered := Sort(nodes, NodeLeq(l));
    NodeLeqTotal(l);
    SortSorts(nodes, NodeLeq(l));
    MergedRepresents(ordered, l, r);
    var j := KeyOwner(ordered, r.fingerprint, l, key);
    assert ordered[j] in multiset(ordered) && ordered[j] in multiset(nodes);
  }

  lemma {:induction false} KeyOwner(nodes: seq<Node>, fingerprint: string, l: Locale, key: OccurrenceKey) returns (j: nat)
    requires key in AllKeys(nodes, fingerprint, l)
    ensures j < |nodes| && nodes[j].fingerprint == fingerprint && key in Keys(Occurrences(nodes[j]), l)
  {
    var k := |nodes| - 1;
    if nodes[k].fingerprint == fingerprint && key in Keys(Occurrences(nodes[k]), l) { j := k; }
    else { j := KeyOwner(nodes[..k], fingerprint, l, key); }
  }

  /** Every fingerprint survives. */
  lemma FingerprintsKept(nodes: seq<Node>, l: Locale)
    ensures Distinct(Deduplicated(nodes, l))
    ensures forall f :: f in Fingerprints(Deduplicated(nodes, l)) <==> f in Fingerprints(nodes)
  {
    var ordered := Sort(nodes, NodeLeq(l));
    NodeLeqTotal(l);
    SortSorts(nodes, NodeLeq(l));
    MergedFingerprints(ordered, l);
    forall f ensures f in Fingerprints(ordered) <==> f in Fingerprints(nodes) {
      InFingerprints(ordered, f);
      InFingerprints(nodes, f);
      assert forall n :: n in ordered <==> n in multiset(ordered);
      assert forall n :: n in nodes <==> n in multiset(nodes);
      if i :| 0 <= i < |ordered| && ordered[i].fingerprint == f { assert ordered[i] in nodes; }
      if i :| 0 <= i < |nodes| && nodes[i].fingerprint == f { assert nodes[i] in ordered; }
    }
  }

  /** Deduplicating a result again changes nothing. */
  lemma DeduplicateTwice(nodes: seq<Node>, l: Locale)
    requires Total(l.before)
    ensures Deduplicated(Deduplicated(nodes, l), l) == Deduplicated(nodes, l)
  {
    var ordered := Sort(nodes, NodeLeq(l));
    NodeLeqTotal(l);
    SortSorts(nodes, NodeLeq(l));
    MergedAscends(ordered, l);
    SortKeeps(Merged(ordered, l), NodeLeq(l));
    MergedFingerprints(ordered, l);
    MergedDistinct(Merged(ordered, l), l);
  }

  /** The kept nodes have the keys of a subsequence of the input, so they ascend when it does. */
  lemma {:induction false} MergedAscends(ordered: seq<Node>, l: Locale)
    requires Ascending(ordered, NodeLeq(l))
    ensures Ascending(Merged(ordered, l), NodeLeq(l))
    ensures forall r :: r in Merged(ordered, l) ==> exists n :: n in ordered && NodeKeyOf(n, l) == NodeKeyOf(r, l)
  {
    if ordered != [] {
      var k := |ordered| - 1;
      MergedAscends(ordered[..k], l);
      assert ordered == ordered[..k] + [ordered[k]];
      TakeAscends(Merged(ordered[..k], l), ordered, l);
    }
  }

  lemma TakeAscends(result: seq<Node>, ordered: seq<Node>, l: Locale)
    requires ordered != [] && Ascending(ordered, NodeLeq(l)) && Ascending(result, NodeLeq(l))
    requires forall r :: r in result ==> exists n :: n in ordered[..|ordered| - 1] && NodeKeyOf(n, l) == NodeKeyOf(r, l)
    ensures Ascending(Take(result, ordered[|ordered| - 1], l), NodeLeq(l))
    ensures forall r :: r in Take(result, ordered[|ordered| - 1], l) ==> exists n :: n in ordered && NodeKeyOf(n, l) == NodeKeyOf(r, l)
  {
    var k := |ordered| - 1;
    var last := ordered[k];
    var next := Take(result, last, l);
    forall r | r in result ensures NodeLeq(l)(r, last) && exists n :: n in ordered && NodeKeyOf(n, l) == NodeKeyOf(r, l) {
      var n :| n in ordered[..k] && NodeKeyOf(n, l) == NodeKeyOf(r, l);
      var i :| 0 <= i < k && ordered[i] == n;
      assert NodeLeq(l)(ordered[i], ordered[k]);
    }
    forall i | 0 <= i < |result| ensures NodeKeyOf(next[i], l) == NodeKeyOf(result[i], l) {}
    forall i, j | 0 <= i < j < |next| ensures NodeLeq(l)(next[i], next[j]) {
      if j < |result| { assert NodeLeq(l)(result[i], result[j]); } else { assert result[i] in result; }
    }
    forall r | r in next ensures exists n :: n in ordered && NodeKeyOf(n, l) == NodeKeyOf(r, l) {
      var i :| 0 <= i < |next| && next[i] == r;
      if i < |result| { assert result[i] in result; } else { assert last in ordered; }
    }
  }

  // ----- independence of the input order -----

  function NodeKeys(nodes: seq<Node>, l: Locale): seq<NodeKey> { seq(|nodes|, i requires 0 <= i < |nodes| => NodeKeyOf(nodes[i], l)) }

  lemma {:induction false} SameKeys(a: seq<Node>, b: seq<Node>, l: Locale)
    requires multiset(a) == multiset(b)
    ensures multiset(NodeKeys(a, l)) == multiset(NodeKeys(b, l))
    decreases |a|
  {
    if a == [] {
      assert |multiset(a)| == |a| && |multiset(b)| == |b|;
    } else {
      var i := RemoveLast(a, b);
      var k := |a| - 1;
      SameKeys(a[..k], b[..i] + b[i + 1..], l);
      assert NodeKeys(a, l) == NodeKeys(a[..k], l) + [NodeKeyOf(a[k], l)];
      RemoveAt(NodeKeys(b, l), i);
      assert NodeKeys(b, l)[..i] + NodeKeys(b, l)[i + 1..] == NodeKeys(b[..i] + b[i + 1..], l);
    }
  }

  lemma KeysAscend(nodes: seq<Node>, l: Locale)
    requires Ascending(nodes, NodeLeq(l))
    ensures Ascending(NodeKeys(nodes, l), KeyLeq)
  {
    forall i, j | 0 <= i < j < |nodes| ensures KeyLeq(NodeKeys(nodes, l)[i], NodeKeys(nodes, l)[j]) { assert NodeLeq(l)(nodes[i], nodes[j]); }
  }

  lemma FingerprintsOfKeys(a: seq<Node>, b: seq<Node>, l: Locale)
    requires NodeKeys(a, l) == NodeKeys(b, l)
    ensures Fingerprints(a) == Fingerprints(b)
  {
    assert |NodeKeys(a, l)| == |a| && |NodeKeys(b, l)| == |b|;
    forall i | 0 <= i < |a| ensures Fingerprints(a)[i] == Fingerprints(b)[i] { assert NodeKeys(a, l)[i] == NodeKeys(b, l)[i]; }
  }

  /** The same nodes in another order give the same fingerprints in the same order. */
  lemma OrderDoesNotMatter(a: seq<Node>, b: seq<Node>, l: Locale)
    requires multiset(a) == multiset(b)
    ensures Fingerprints(Deduplicated(a, l)) == Fingerprints(Deduplicated(b, l))
  {
    var x, y := Sort(a, NodeLeq(l)), Sort(b, NodeLeq(l));
    NodeLeqTotal(l);
    SortSorts(a, NodeLeq(l));
    SortSorts(b, NodeLeq(l));
    SameKeys(x, y, l);
    KeysAscend(x, l);
    KeysAscend(y, l);
    KeyLeqTotal();
    AscendingUnique(NodeKeys(x, l), NodeKeys(y, l), KeyLeq);
    FingerprintsOfKeys(x, y, l);
    MergedFingerprints(x, l);
    MergedFingerprints(y, l);
  }

  /** And every kept node the same occurrence keys. */
  lemma OccurrencesDoNotDependOnOrder(a: seq<Node>, b: seq<Node>, l: Locale, r: Node, s: Node)
    requires multiset(a) == multiset(b) && Total(l.before)
    requires r in Deduplicated(a, l) && s in Deduplicated(b, l) && r.fingerprint == s.fingerprint
    ensures Keys(Occurrences(r), l) == Keys(Occurrences(s), l)
  {
    forall key ensures key in Keys(Occurrences(r), l) <==> key in Keys(Occurrences(s), l) {
      if key in Keys(Occurrences(r), l) { KeyMoves(a, b, l, r, s, key); }
      if key in Keys(Occurrences(s), l) { KeyMoves(b, a, l, s, r, key); }
    }
  }

  lemma KeyMoves(a: seq<Node>, b: seq<Node>, l: Locale, r: Node, s: Node, key: OccurrenceKey)
    requires multiset(a) == multiset(b) && Total(l.before)
    requires r in Deduplicated(a, l) && s in Deduplicated(b, l) && r.fingerprint == s.fingerprint && key in Keys(Occurrences(r), l)
    ensures key in Keys(Occurrences(s), l)
  {
    KeysAreInputs(a, l, r, key);
    var n :| n in a && n.fingerprint == r.fingerprint && key in Keys(Occurrences(n), l);
    assert n in multiset(a) && n in multiset(b);
    KeptIsLeast(b, l, s, n);
  }
}
