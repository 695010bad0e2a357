/** Which documents hold which cache. */
module CacheExactly {
  import opened Results
  import opened Ordering
  import opened QualificationCache
  import opened CacheDocument

  /** A verdict: a boolean and an epoch that is not negative; Python counts a boolean as an integer. */
  ghost predicate IsVerdict(j: Json, v: Verdict) {
    && j.Object? && "passed" in j.fields && j.fields["passed"] == Bool(v.passed) && v.epoch >= 0
    && "checked_epoch" in j.fields && j.fields["checked_epoch"] in {Int(v.epoch), Bool(v.epoch == 1)} && (j.fields["checked_epoch"].Bool? ==> v.epoch < 2)
  }

  /** The verdicts of one node, by service. */
  ghost predicate IsRecord(j: Json, s: Services) {
    && j.Object? && "services" in j.fields && j.fields["services"].Object?
    && (forall k :: k in s <==> k in j.fields["services"].fields) && forall k :: k in s ==> IsVerdict(j.fields["services"].fields[k], s[k])
  }

  /** Version 1, and a record for each listed fingerprint of 64 characters. */
  ghost predicate IsCache(j: Json, c: Cache) {
    && j.Object? && "version" in j.fields && j.fields["version"] in {Int(1), Bool(true), Real(1.0)}
    && "nodes" in j.fields && j.fields["nodes"].Object? && c.order == j.fields["nodes"].order
    && (forall f :: f in c.nodes <==> f in j.fields["nodes"].fields && f in c.order)
    && forall f :: f in c.nodes ==> |f| == 64 && IsRecord(j.fields["nodes"].fields[f], c.nodes[f])
  }

  lemma VerdictExactly(j: Json, v: Verdict)
    ensures ReadVerdict(j) == Some(v) <==> IsVerdict(j, v)
  {
    assert PASSED == "passed" && CHECKED == "checked_epoch";
  }

  lemma VerdictsRead(verdicts: map<string, Json>, s: Services)
    requires (forall k :: k in s <==> k in verdicts) && forall k :: k in s ==> ReadVerdict(verdicts[k]) == Some(s[k])
    ensures (forall k :: k in verdicts ==> ReadVerdict(verdicts[k]).Some?) && (map k | k in verdicts :: ReadVerdict(verdicts[k]).value) == s
  {
    forall k | k in verdicts ensures ReadVerdict(verdicts[k]).Some? { assert k in s; }
  }

  lemma RecordExactly(j: Json, s: Services)
    ensures ReadServices(j) == Some(s) <==> IsRecord(j, s)
  {
    assert CacheDocument.SERVICES == "services";
    forall x: Json, v ensures ReadVerdict(x) == Some(v) <==> IsVerdict(x, v) { VerdictExactly(x, v); }
    if IsRecord(j, s) {
      assert Get(j, CacheDocument.SERVICES) == j.fields["services"];
      VerdictsRead(j.fields["services"].fields, s);
    }
  }

  /** A document is loaded as a cache exactly when it holds it. */
  lemma LoadedExactly(content: Content, c: Cache)
    ensures Read(content) == (c, Loaded) <==> content.Document? && IsCache(content.json, c)
  {
    assert VERSION == "version" && NODES == "nodes" && FINGERPRINT_LENGTH == 64;
    forall x: Json, s ensures ReadServices(x) == Some(s) <==> IsRecord(x, s) { RecordExactly(x, s); }
    if content.Document? && content.json.Object? && Get(content.json, NODES).Object? {
      NodesExactly(Get(content.json, NODES), c);
    }
  }

  lemma NodesExactly(nodes: Json, c: Cache)
    requires nodes.Object?
    ensures CacheDocument.Reads(nodes.order, nodes.fields) && c == Cache(nodes.order, ReadNodes(nodes.order, nodes.fields))
            <==> && c.order == nodes.order && (forall f :: f in c.nodes <==> f in nodes.fields && f in c.order)
                 && forall f :: f in c.nodes ==> |f| == 64 && IsRecord(nodes.fields[f], c.nodes[f])
  {
    forall x: Json, s ensures ReadServices(x) == Some(s) <==> IsRecord(x, s) { RecordExactly(x, s); }
    if c.order == nodes.order && (forall f :: f in c.nodes <==> f in nodes.fields && f in c.order)
       && forall f :: f in c.nodes ==> |f| == 64 && IsRecord(nodes.fields[f], c.nodes[f])
    {
      forall f | f in nodes.order && f in nodes.fields ensures |f| == 64 && ReadServices(nodes.fields[f]) == Some(c.nodes[f]) { assert f in c.nodes; }
    }
  }

  /** Anything else leaves the cache empty: missing when there is no file, invalid otherwise. */
  lemma OtherwiseEmpty(content: Content)
    ensures Read(content).1 == Loaded || Read(content) == (EMPTY, if content.Absent? then Missing else Invalid)
  {
  }

  // ----- what is stored -----

  /** A verdict, a record and a cache as they are written, keys in order. */
  ghost predicate StoresVerdict(j: Json, v: Verdict) {
    j.Object? && j.order == ["checked_epoch", "passed"] && j.fields == map["checked_epoch" := Int(v.epoch), "passed" := Bool(v.passed)]
  }

  ghost predicate StoresRecord(j: Json, s: Services) {
    && j.Object? && j.order == ["services"] && j.fields.Keys == {"services"} && j.fields["services"].Object?
    && var k := j.fields["services"];
    k.fields.Keys == s.Keys && InOrder(k.order, s.Keys) && forall x :: x in s ==> StoresVerdict(k.fields[x], s[x])
  }

  ghost predicate StoresCache(j: Json, c: Cache) {
    && j.Object? && j.order == ["nodes", "version"] && j.fields.Keys == {"nodes", "version"}
    && j.fields["version"] == Int(1) && j.fields["nodes"].Object?
    && StoresNodes(j.fields["nodes"], c.nodes)
  }

  ghost predicate StoresNodes(j: Json, nodes: map<string, Services>)
    requires j.Object?
  {
    j.fields.Keys == nodes.Keys && InOrder(j.order, nodes.Keys) && forall f :: f in nodes ==> StoresRecord(j.fields[f], nodes[f])
  }

  ghost predicate InOrder(order: seq<string>, names: set<string>) {
    (forall x :: x in order <==> x in names) && NoDuplicates(order) && forall i, j :: 0 <= i < j < |order| ==> Leq(order[i], order[j])
  }

  lemma SortedInOrder(names: set<string>)
    ensures InOrder(Sorted(names), names)
  {
    SortedAscends(names);
  }

  lemma VerdictStored(v: Verdict)
    ensures StoresVerdict(WriteVerdict(v), v)
  {
  }

  lemma RecordStored(s: Services)
    ensures StoresRecord(WriteServices(s), s)
  {
    SortedInOrder(s.Keys);
    forall x | x in s ensures StoresVerdict(WriteVerdicts(s).fields[x], s[x]) { VerdictStored(s[x]); }
  }

  lemma WrittenExactly(c: Cache)
    ensures StoresCache(CacheDocument.Write(c), c)
  {
    NodesStored(c);
    PairStored(WriteNodes(c));
  }

  lemma PairStored(nodes: Json)
    ensures var j := Pair(NODES, nodes, VERSION, Int(1));
            && j.order == ["nodes", "version"] && j.fields.Keys == {"nodes", "version"}
            && j.fields["version"] == Int(1) && j.fields["nodes"] == nodes
  {
  }

  lemma NodesStored(c: Cache)
    ensures StoresNodes(WriteNodes(c), c.nodes)
  {
    SortedInOrder(c.nodes.Keys);
    forall f | f in c.nodes ensures WriteNodes(c).fields[f] == WriteServices(c.nodes[f]) && StoresRecord(WriteServices(c.nodes[f]), c.nodes[f]) {
      RecordStored(c.nodes[f]);
    }
  }
}
