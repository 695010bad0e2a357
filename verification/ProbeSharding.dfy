/** Probing a candidate shard by shard: the merged evidence does not depend on the shards or their order. */
module ProbeSharding {
  import opened Ordering
  import opened ProbeEvidence

  const SHARD_SIZE: nat := 20

  /** A region label and nodes probed under it: a provider's payload, or a slice of one. */
  datatype Shard = Shard(region: string, payload: seq<string>)

  datatype Entry = Entry(region: string, name: string)

  function Entries(s: Shard): seq<Entry> {
    seq(|s.payload|, i requires 0 <= i < |s.payload| => Entry(s.region, s.payload[i]))
  }

  function AllEntries(shards: seq<Shard>): seq<Entry> {
    if shards == [] then [] else AllEntries(shards[..|shards| - 1]) + Entries(shards[|shards| - 1])
  }

  /** What one probed node contributes, the count of qualified nodes aside. */
  function EntrySummary(e: Entry, node: Oracle): Summary {
    var o := node(e.name);
    Summary(1, 0, One(o.Unselected?), map[e.region := NodeRow(o)], TalliesOf(ResultsOf(o)))
  }

  function Total(entries: seq<Entry>, node: Oracle): Summary {
    if entries == [] then ZERO
    else AddSummary(Total(entries[..|entries| - 1], node), EntrySummary(entries[|entries| - 1], node))
  }

  function NamesOf(entries: seq<Entry>, node: Oracle): set<string> { set e | e in entries && Passed(node(e.name)) :: e.name }

  /** Results name declared probes only. */
  ghost predicate Declared(names: set<string>, node: Oracle) {
    forall n: string, r :: r in ResultsOf(node(n)) ==> r.probe in names
  }

  // ----- one shard -----

  function ShardSummary(names: set<string>, s: Shard, node: Oracle): Summary {
    AddSummary(New(names), Total(Entries(s), node)).(qualified := |NamesOf(Entries(s), node)|)
  }

  /** Probes and regions after the first `k` nodes of a shard. */
  lemma EntriesStep(s: Shard, k: nat, node: Oracle)
    requires k < |s.payload|
    ensures Total(Entries(s)[..k + 1], node) == AddSummary(Total(Entries(s)[..k], node), EntrySummary(Entries(s)[k], node))
  {
    TakeStep(Entries(s), k);
  }

  ghost predicate Lists(entries: seq<Entry>, region: string, payload: seq<string>) {
    |entries| == |payload| && forall i :: 0 <= i < |entries| ==> entries[i] == Entry(region, payload[i])
  }

  lemma {:induction false} TotalRegions(entries: seq<Entry>, region: string, payload: seq<string>, node: Oracle)
    requires Lists(entries, region, payload)
    ensures Total(entries, node).regions == RowsOf(region, payload, node)
  {
    if entries != [] { TotalRegions(entries[..|entries| - 1], region, payload[..|payload| - 1], node); }
  }

  lemma {:induction false} TotalCounts(entries: seq<Entry>, node: Oracle)
    ensures Total(entries, node).tested == |entries| && Total(entries, node).qualified == 0
  {
    if entries != [] { TotalCounts(entries[..|entries| - 1], node); }
  }

  lemma QualifiedNames(s: Shard, node: Oracle)
    ensures NamesOf(Entries(s), node) == Qualified(s.payload, node)
  {
    forall n ensures n in NamesOf(Entries(s), node) <==> n in Qualified(s.payload, node) {
      if n in Qualified(s.payload, node) {
        var i :| 0 <= i < |s.payload| && s.payload[i] == n;
        assert Entries(s)[i] == Entry(s.region, n);
      }
      if n in NamesOf(Entries(s), node) {
        var e :| e in Entries(s) && e.name == n && Passed(node(n));
      }
    }
  }

  lemma {:induction false} DeclaredKeys(results: seq<ProbeResult>, names: set<string>)
    requires forall r :: r in results ==> r.probe in names
    ensures TalliesOf(results).Keys <= names
  {
    if results != [] { DeclaredKeys(results[..|results| - 1], names); }
  }

  lemma {:induction false} TotalKeys(entries: seq<Entry>, names: set<string>, node: Oracle)
    requires Declared(names, node)
    ensures Total(entries, node).probes.Keys <= names
  {
    if entries != [] {
      TotalKeys(entries[..|entries| - 1], names, node);
      DeclaredKeys(ResultsOf(node(entries[|entries| - 1].name)), names);
    }
  }

  lemma ShardKeys(names: set<string>, entries: seq<Entry>, node: Oracle)
    requires Declared(names, node)
    ensures AddSummary(New(names), Total(entries, node)).probes.Keys == names
  {
    TotalKeys(entries, names, node);
  }

  /** The probe tallies and selector failures after the first `k` nodes. */
  lemma ProbesStep(names: set<string>, s: Shard, k: nat, node: Oracle)
    requires k < |s.payload|
    ensures var before, after := AddSummary(New(names), Total(Entries(s)[..k], node)), AddSummary(New(names), Total(Entries(s)[..k + 1], node));
            && after.probes == JoinTallies(before.probes, TalliesOf(ResultsOf(node(s.payload[k]))))
            && after.selectorFailures == before.selectorFailures + One(node(s.payload[k]).Unselected?)
  {
    EntriesStep(s, k, node);
    JoinTalliesAssociates(New(names).probes, Total(Entries(s)[..k], node).probes, TalliesOf(ResultsOf(node(s.payload[k]))));
  }

  /** Select the node, record its probe results; a refused selection is only counted. */
  method ProbeNode(d: Diagnostics, o: Observation) returns (passed: bool)
    requires forall r :: r in ResultsOf(o) ==> r.probe in d.probes
    modifies d`probes, d`selectorFailures
    ensures passed == Passed(o) && d.selectorFailures == old(d.selectorFailures) + One(o.Unselected?)
    ensures d.probes == JoinTallies(old(d.probes), TalliesOf(ResultsOf(o)))
  {
    if o.Unselected? {
      assert JoinTallies(d.probes, map[]) == d.probes;
      d.selectorFailures := d.selectorFailures + 1;
      return false;
    }
    d.RecordProbeResults(o.results);
    return o.passed;
  }

  /** Selects and probes every node of a shard. */
  method ProbeNodes(names: set<string>, s: Shard, node: Oracle, d: Diagnostics) returns (qualified: set<string>)
    requires Declared(names, node) && d.probes == New(names).probes && d.selectorFailures == 0
    modifies d`probes, d`selectorFailures
    ensures d.tested == old(d.tested) && d.regions == old(d.regions)
    ensures d.probes == AddSummary(New(names), Total(Entries(s), node)).probes
    ensures d.selectorFailures == AddSummary(New(names), Total(Entries(s), node)).selectorFailures
    ensures qualified == Qualified(s.payload, node)
  {
    qualified := {};
    WholeShard(s);
    MergeZero(New(names));
    for k := 0 to |s.payload|
      invariant d.probes == AddSummary(New(names), Total(Entries(s)[..k], node)).probes
      invariant d.selectorFailures == AddSummary(New(names), Total(Entries(s)[..k], node)).selectorFailures
      invariant qualified == Qualified(s.payload[..k], node)
    {
      QualifiedStep(s.payload, k, node);
      ProbesStep(names, s, k, node);
      ShardKeys(names, Entries(s)[..k], node);
      var passed := ProbeNode(d, node(s.payload[k]));
      if passed { qualified := qualified + {s.payload[k]}; }
    }
  }

  method QualifyShard(names: set<string>, s: Shard, node: Oracle) returns (qualified: set<string>, d: Diagnostics)
    requires Declared(names, node)
    ensures fresh(d) && d.Value() == ShardSummary(names, s, node)
    ensures qualified == NamesOf(Entries(s), node)
  {
    d := new Diagnostics(names);
    ghost var start := d.Value();
    assert start == New(names);
    d.tested := |s.payload|;
    qualified := ProbeNodes(names, s, node, d);
    d.qualified := |qualified|;
    ghost var before := d.Value();
    d.RecordRegionResults(s.region, s.payload, qualified, node);
    QualifiedNames(s, node);
    ShardValue(names, s, node, before.(regions := d.regions));
  }

  lemma WholeShard(s: Shard)
    ensures s.payload[..|s.payload|] == s.payload && Entries(s)[..|s.payload|] == Entries(s)
    ensures s.payload[..0] == [] && Entries(s)[..0] == []
  {
  }

  lemma QualifiedStep(payload: seq<string>, k: nat, node: Oracle)
    requires k < |payload|
    ensures Qualified(payload[..k + 1], node) == Qualified(payload[..k], node) + if Passed(node(payload[k])) then {payload[k]} else {}
  {
    TakeStep(payload, k);
  }

  lemma ShardValue(names: set<string>, s: Shard, node: Oracle, v: Summary)
    requires v.tested == |s.payload| && v.qualified == |NamesOf(Entries(s), node)|
    requires v.regions == JoinRows(map[], RowsOf(s.region, s.payload, node))
    requires var sum := AddSummary(New(names), Total(Entries(s), node)); v.probes == sum.probes && v.selectorFailures == sum.selectorFailures
    ensures v == ShardSummary(names, s, node)
  {
    var total := Total(Entries(s), node);
    ShardTotals(s, node);
    assert AddSummary(New(names), total).regions == JoinRows(map[], total.regions);
  }

  lemma ShardTotals(s: Shard, node: Oracle)
    ensures Total(Entries(s), node).regions == RowsOf(s.region, s.payload, node) && Total(Entries(s), node).tested == |s.payload|
  {
    TotalRegions(Entries(s), s.region, s.payload, node);
    TotalCounts(Entries(s), node);
  }

  // ----- all shards -----

  function Aggregate(names: set<string>, shards: seq<Shard>, node: Oracle): Summary {
    AddSummary(New(names), Total(AllEntries(shards), node)).(qualified := |NamesOf(AllEntries(shards), node)|)
  }

  lemma {:induction false} TotalAppend(a: seq<Entry>, b: seq<Entry>, node: Oracle)
    ensures Total(a + b, node) == AddSummary(Total(a, node), Total(b, node))
  {
    if b == [] {
      assert a + b == a;
      MergeZero(Total(a, node));
    } else {
      var k := |b| - 1;
      assert (a + b)[..|a + b| - 1] == a + b[..k];
      TotalAppend(a, b[..k], node);
      MergeAssociates(Total(a, node), Total(b[..k], node), EntrySummary(b[k], node));
    }
  }

  lemma NewTwice(v: Summary, z: Tally)
    requires v.tested == 0 && v.qualified == 0 && v.selectorFailures == 0 && v.regions.Keys == {}
    requires z.passed == 0 && z.failed == 0 && z.outcomes.Keys == {} && forall n :: n in v.probes ==> v.probes[n] == z
    ensures AddSummary(v, v) == v
  {
    ZeroTallies(v.probes, z);
    assert JoinRows(v.regions, v.regions) == v.regions;
  }

  lemma ZeroTally(z: Tally)
    requires z.passed == 0 && z.failed == 0 && z.outcomes.Keys == {}
    ensures AddTally(z, z) == z
  {
    assert JoinCounts(z.outcomes, z.outcomes) == z.outcomes;
  }

  lemma ZeroTallies(m: map<string, Tally>, z: Tally)
    requires z.passed == 0 && z.failed == 0 && z.outcomes.Keys == {} && forall n :: n in m ==> m[n] == z
    ensures JoinTallies(m, m) == m
  {
    ZeroTally(z);
    JoinSame(m, z, AddTally);
  }

  lemma JoinSame<V(!new)>(m: map<string, V>, zero: V, add: (V, V) -> V)
    requires add(zero, zero) == zero && forall n :: n in m ==> m[n] == zero
    ensures Join(m, m, add) == m
  {
  }

  /** Merging one more shard into the running aggregate. */
  lemma MergeShard(names: set<string>, shards: seq<Shard>, k: nat, node: Oracle)
    requires k < |shards|
    ensures var before, after := AddSummary(New(names), Total(AllEntries(shards[..k]), node)), AddSummary(New(names), Total(AllEntries(shards[..k + 1]), node));
            after == AddSummary(before, AddSummary(New(names), Total(Entries(shards[k]), node)))
  {
    TakeStep(shards, k);
    var zero, a, b := New(names), Total(AllEntries(shards[..k]), node), Total(Entries(shards[k]), node);
    TotalAppend(AllEntries(shards[..k]), Entries(shards[k]), node);
    MergeAssociates(AddSummary(zero, a), zero, b);
    MergeAssociates(zero, a, zero);
    MergeCommutes(a, zero);
    MergeAssociates(zero, zero, a);
    NewTwice(zero, NO_TALLY);
    MergeAssociates(zero, a, b);
  }

  lemma NamesAppend(a: seq<Entry>, b: seq<Entry>, node: Oracle)
    ensures NamesOf(a + b, node) == NamesOf(a, node) + NamesOf(b, node)
  {
    assert forall e :: e in a + b <==> e in a || e in b;
  }

  lemma NamesStep(shards: seq<Shard>, k: nat, node: Oracle)
    requires k < |shards|
    ensures NamesOf(AllEntries(shards[..k + 1]), node) == NamesOf(AllEntries(shards[..k]), node) + NamesOf(Entries(shards[k]), node)
  {
    TakeStep(shards, k);
    NamesAppend(AllEntries(shards[..k]), Entries(shards[k]), node);
  }

  lemma DropQualified(a: Summary, b: Summary)
    ensures AddSummary(a, b).(qualified := 0) == AddSummary(a.(qualified := 0), b.(qualified := 0))
  {
  }

  /** Merges shard after shard as they complete, then counts the qualified nodes once. */
  method ProbeAll(names: set<string>, shards: seq<Shard>, node: Oracle) returns (qualified: set<string>, aggregate: Diagnostics)
    requires Declared(names, node)
    ensures fresh(aggregate) && aggregate.Value() == Aggregate(names, shards, node)
    ensures qualified == NamesOf(AllEntries(shards), node)
  {
    aggregate := new Diagnostics(names);
    qualified := MergeAll(names, shards, node, aggregate);
    aggregate.SetQualified(|qualified|);
  }

  lemma AggregateValue(names: set<string>, shards: seq<Shard>, node: Oracle, v: Summary, qualified: set<string>)
    requires Merged(names, shards, |shards|, node, v, qualified)
    ensures v.(qualified := |qualified|) == Aggregate(names, shards, node) && qualified == NamesOf(AllEntries(shards), node)
  {
    assert shards[..|shards|] == shards;
    var sum := AddSummary(New(names), Total(AllEntries(shards), node));
    assert v.(qualified := 0).(qualified := |qualified|) == sum.(qualified := |qualified|);
  }

  lemma MergedNone(names: set<string>, shards: seq<Shard>, node: Oracle)
    ensures Merged(names, shards, 0, node, New(names), {})
  {
    assert shards[..0] == [];
    MergeZero(New(names));
  }

  method MergeAll(names: set<string>, shards: seq<Shard>, node: Oracle, aggregate: Diagnostics) returns (qualified: set<string>)
    requires Declared(names, node) && aggregate.Value() == New(names)
    modifies aggregate
    ensures aggregate.Value().(qualified := |qualified|) == Aggregate(names, shards, node)
    ensures qualified == NamesOf(AllEntries(shards), node)
  {
    MergedNone(names, shards, node);
    qualified := MergeEach(names, shards, node, aggregate);
    AggregateValue(names, shards, node, aggregate.Value(), qualified);
  }

  method MergeEach(names: set<string>, shards: seq<Shard>, node: Oracle, aggregate: Diagnostics) returns (qualified: set<string>)
    requires Declared(names, node) && Merged(names, shards, 0, node, aggregate.Value(), {})
    modifies aggregate
    ensures Merged(names, shards, |shards|, node, aggregate.Value(), qualified)
  {
    qualified := {};
    for k := 0 to |shards|
      invariant Merged(names, shards, k, node, aggregate.Value(), qualified)
    {
      var found := AddShard(names, shards, k, node, aggregate, qualified);
      qualified := qualified + found;
    }
  }

  /** The aggregate over the first `k` shards, its running count of qualified nodes aside. */
  ghost predicate Merged(names: set<string>, shards: seq<Shard>, k: nat, node: Oracle, v: Summary, qualified: set<string>)
    requires k <= |shards|
  {
    && v.probes.Keys == names
    && v.(qualified := 0) == AddSummary(New(names), Total(AllEntries(shards[..k]), node))
    && qualified == NamesOf(AllEntries(shards[..k]), node)
  }

  method AddShard(names: set<string>, shards: seq<Shard>, k: nat, node: Oracle, aggregate: Diagnostics, ghost qualified: set<string>)
    returns (found: set<string>)
    requires k < |shards| && Declared(names, node) && Merged(names, shards, k, node, aggregate.Value(), qualified)
    modifies aggregate
    ensures Merged(names, shards, k + 1, node, aggregate.Value(), qualified + found)
  {
    var evidence;
    found, evidence := QualifyShard(names, shards[k], node);
    ghost var before := aggregate.Value();
    ShardKeys(names, Entries(shards[k]), node);
    assert evidence.Value().probes.Keys == names;
    aggregate.Merge(evidence);
    MergedStep(names, shards, k, node, before, qualified, found);
  }

  lemma MergedStep(names: set<string>, shards: seq<Shard>, k: nat, node: Oracle, v: Summary, qualified: set<string>, found: set<string>)
    requires k < |shards| && Declared(names, node) && Merged(names, shards, k, node, v, qualified)
    requires found == NamesOf(Entries(shards[k]), node)
    ensures Merged(names, shards, k + 1, node, AddSummary(v, ShardSummary(names, shards[k], node)), qualified + found)
  {
    MergeShard(names, shards, k, node);
    TotalCounts(Entries(shards[k]), node);
    NamesStep(shards, k, node);
    ShardKeys(names, Entries(shards[k]), node);
    ShardKeys(names, AllEntries(shards[..k + 1]), node);
    DropQualified(v, ShardSummary(names, shards[k], node));
  }

  // ----- order and sharding do not matter -----

  lemma {:induction false} TotalRemove(entries: seq<Entry>, i: nat, node: Oracle)
    requires i < |entries|
    ensures Total(entries, node) == AddSummary(Total(entries[..i] + entries[i + 1..], node), EntrySummary(entries[i], node))
  {
    var a, e, b := entries[..i], entries[i], entries[i + 1..];
    assert entries == (a + [e]) + b;
    TotalAppend(a + [e], b, node);
    TotalAppend(a, [e], node);
    TotalAppend(a, b, node);
    TotalOne(e, node);
    MergeAssociates(Total(a, node), EntrySummary(e, node), Total(b, node));
    MergeCommutes(EntrySummary(e, node), Total(b, node));
    MergeAssociates(Total(a, node), Total(b, node), EntrySummary(e, node));
  }

  lemma TotalOne(e: Entry, node: Oracle)
    ensures Total([e], node) == EntrySummary(e, node)
  {
    assert [e][..0] == [];
    MergeZero(EntrySummary(e, node));
  }

  /** The evidence depends only on which entries were probed how often. */
  lemma {:induction false} TotalPermutation(a: seq<Entry>, b: seq<Entry>, node: Oracle)
    requires multiset(a) == multiset(b)
    ensures Total(a, node) == Total(b, node)
    decreases |a|
  {
    if a == [] {
      SameLength(a, b);
    } else {
      var i := RemoveLast(a, b);
      TotalPermutation(a[..|a| - 1], b[..i] + b[i + 1..], node);
      TotalRemove(b, i, node);
    }
  }

  lemma SameLength(a: seq<Entry>, b: seq<Entry>)
    requires multiset(a) == multiset(b)
    ensures |a| == |b|
  {
    assert |multiset(a)| == |a| && |multiset(b)| == |b|;
  }

  /** Any two ways of sharding the same nodes, completed in any two orders, give the same diagnostics and the same qualified nodes. */
  lemma AggregateOrderFree(names: set<string>, a: seq<Shard>, b: seq<Shard>, node: Oracle)
    requires multiset(AllEntries(a)) == multiset(AllEntries(b))
    ensures Aggregate(names, a, node) == Aggregate(names, b, node)
    ensures NamesOf(AllEntries(a), node) == NamesOf(AllEntries(b), node)
  {
    TotalPermutation(AllEntries(a), AllEntries(b), node);
    NamesPermutation(AllEntries(a), AllEntries(b), node);
  }

  lemma NamesPermutation(a: seq<Entry>, b: seq<Entry>, node: Oracle)
    requires multiset(a) == multiset(b)
    ensures NamesOf(a, node) == NamesOf(b, node)
  {
    assert forall e :: e in a <==> e in multiset(a);
    assert forall e :: e in b <==> e in multiset(b);
  }

  /** A different completion order probes the same entries. */
  lemma {:induction false} CompletionOrder(a: seq<Shard>, b: seq<Shard>)
    requires multiset(a) == multiset(b)
    ensures multiset(AllEntries(a)) == multiset(AllEntries(b))
    decreases |a|
  {
    if a == [] {
      assert |multiset(a)| == |a| && |multiset(b)| == |b|;
    } else {
      var i := RemoveLast(a, b);
      CompletionOrder(a[..|a| - 1], b[..i] + b[i + 1..]);
      AllEntriesAround(b, i);
    }
  }

  lemma AllEntriesAround(b: seq<Shard>, i: nat)
    requires i < |b|
    ensures multiset(AllEntries(b)) == multiset(AllEntries(b[..i] + b[i + 1..])) + multiset(Entries(b[i]))
  {
    var x, s, y := b[..i], b[i], b[i + 1..];
    SplitAt(b, i);
    AllEntriesAppend(x, [s] + y);
    AllEntriesAppend([s], y);
    AllEntriesAppend(x, y);
    AllEntriesOne(s);
  }

  lemma AllEntriesOne(s: Shard)
    ensures AllEntries([s]) == Entries(s)
  {
    assert [s][..0] == [];
  }

  lemma {:induction false} AllEntriesAppend(a: seq<Shard>, b: seq<Shard>)
    ensures AllEntries(a + b) == AllEntries(a) + AllEntries(b)
  {
    if b == [] {
      assert a + b == a;
    } else {
      var k := |b| - 1;
      var all := a + b;
      assert all[..|all| - 1] == a + b[..k] && all[|all| - 1] == b[k];
      AllEntriesAppend(a, b[..k]);
      Associate(AllEntries(a), AllEntries(b[..k]), Entries(b[k]));
    }
  }

  // ----- building the shards -----

  /** Full slices of twenty nodes and then one of the rest. */
  function SlicesOf(s: Shard): seq<Shard> {
    seq((|s.payload| + 19) / 20, i requires 0 <= i < (|s.payload| + 19) / 20 =>
      Shard(s.region, s.payload[20 * i..if 20 * i + 20 < |s.payload| then 20 * i + 20 else |s.payload|]))
  }

  function AllSlices(payloads: seq<Shard>): seq<Shard> {
    if payloads == [] then [] else AllSlices(payloads[..|payloads| - 1]) + SlicesOf(payloads[|payloads| - 1])
  }

  /** Slices of at most `SHARD_SIZE` nodes of every payload, in order, covering the payloads exactly. */
  method BuildShards(payloads: seq<Shard>) returns (shards: seq<Shard>)
    ensures shards == AllSlices(payloads)
    ensures AllEntries(shards) == AllEntries(payloads)
    ensures forall s :: s in shards ==> 1 <= |s.payload| <= 20
  {
    shards := [];
    assert payloads[..0] == [];
    for k := 0 to |payloads|
      invariant shards == AllSlices(payloads[..k])
      invariant AllEntries(shards) == AllEntries(payloads[..k])
      invariant forall s :: s in shards ==> 1 <= |s.payload| <= SHARD_SIZE
    {
      TakeStep(payloads, k);
      var slices := Slices(payloads[k]);
      AllEntriesAppend(shards, slices);
      shards := shards + slices;
    }
    assert payloads[..|payloads|] == payloads;
  }

  method Slices(whole: Shard) returns (slices: seq<Shard>)
    ensures slices == SlicesOf(whole)
    ensures AllEntries(slices) == Entries(whole)
    ensures forall s :: s in slices ==> 1 <= |s.payload| <= SHARD_SIZE
  {
    slices := [];
    var start := 0;
    while start < |whole.payload|
      invariant start == 20 * |slices| && |slices| <= |SlicesOf(whole)| && slices == SlicesOf(whole)[..|slices|]
      invariant start <= |whole.payload| || AllEntries(slices) == Entries(whole)
      invariant start <= |whole.payload| ==> AllEntries(slices) == Entries(whole)[..start]
      invariant forall s :: s in slices ==> 1 <= |s.payload| <= SHARD_SIZE
    {
      var end := if start + SHARD_SIZE < |whole.payload| then start + SHARD_SIZE else |whole.payload|;
      var slice := Shard(whole.region, whole.payload[start..end]);
      assert Entries(slice) == Entries(whole)[start..end];
      assert Entries(whole)[..start] + Entries(whole)[start..end] == Entries(whole)[..end];
      AllEntriesAppend(slices, [slice]);
      AllEntriesOne(slice);
      slices := slices + [slice];
      start := start + SHARD_SIZE;
      assert start >= |whole.payload| ==> Entries(whole)[..end] == Entries(whole);
    }
    assert Entries(whole)[..|whole.payload|] == Entries(whole);
  }
}
