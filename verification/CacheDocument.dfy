/** The stored form of the qualification cache: what is let in, and that what was written reads back. */
module CacheDocument {
  import opened Results
  import opened Ordering
  import opened QualificationCache
  import opened QualificationRuns

  /** A decoded JSON value; an object keeps the order of its keys. */
  datatype Json = Null | Bool(b: bool) | Int(n: int) | Real(r: real) | Text(s: string) | List(items: seq<Json>)
                | Object(order: seq<string>, fields: map<string, Json>)

  /** No bytes, bytes that are not a JSON document, or a document. */
  datatype Content = Absent | Unreadable | Document(json: Json)

  datatype Status = Missing | Invalid | Loaded

  /** `== 1` in Python also holds of `True` and of `1.0`. */
  predicate EqualsOne(j: Json) { j == Int(1) || j == Bool(true) || j == Real(1.0) }

  /** `isinstance(value, int)` also holds of booleans. */
  function AsInt(j: Json): Option<int> {
    match j
    case Int(n) => Some(n)
    case Bool(b) => Some(if b then 1 else 0)
    case _ => None
  }

  function Get(j: Json, key: string): Json
    requires j.Object?
  {
    if key in j.fields then j.fields[key] else Null
  }

  const NODES := "nodes"
  const VERSION := "version"
  const SERVICES := "services"
  const PASSED := "passed"
  const CHECKED := "checked_epoch"

  lemma KeysApart()
    ensures NODES != VERSION && PASSED != CHECKED
  {
    assert NODES[0] == 'n' && VERSION[0] == 'v' && PASSED[0] == 'p' && CHECKED[0] == 'c';
  }

  function Pair(a: string, x: Json, b: string, y: Json): Json { Object([a, b], map[a := x, b := y]) }

  lemma GetPair(a: string, x: Json, b: string, y: Json)
    requires a != b
    ensures Get(Pair(a, x, b, y), a) == x && Get(Pair(a, x, b, y), b) == y
  {
  }

  function Only(a: string, x: Json): Json { Object([a], map[a := x]) }

  lemma GetOnly(a: string, x: Json)
    ensures Get(Only(a, x), a) == x
  {
  }

  function ReadVerdict(j: Json): Option<Verdict> {
    if !j.Object? then None
    else
      var passed, checked := Get(j, PASSED), AsInt(Get(j, CHECKED));
      if !passed.Bool? || checked.None? || checked.value < 0 then None else Some(Verdict(passed.b, checked.value))
  }

  function ReadServices(j: Json): Option<Services> {
    if !j.Object? then None
    else
      var services := Get(j, SERVICES);
      if !services.Object? || exists s :: s in services.fields && ReadVerdict(services.fields[s]).None? then None
      else Some(map s | s in services.fields :: ReadVerdict(services.fields[s]).value)
  }

  const FINGERPRINT_LENGTH: nat := 64

  /** Every key is a fingerprint and every record reads. */
  predicate Reads(order: seq<string>, fields: map<string, Json>) {
    forall f :: f in order && f in fields ==> |f| == FINGERPRINT_LENGTH && ReadServices(fields[f]).Some?
  }

  function ReadNodes(order: seq<string>, fields: map<string, Json>): map<string, Services>
    requires Reads(order, fields)
  {
    map f | f in fields && f in order :: ReadServices(fields[f]).value
  }

  function Read(content: Content): (Cache, Status) {
    match content
    case Absent => (EMPTY, Missing)
    case Unreadable => (EMPTY, Invalid)
    case Document(j) =>
      if !j.Object? || !EqualsOne(Get(j, VERSION)) || !Get(j, NODES).Object? then (EMPTY, Invalid)
      else
        var nodes := Get(j, NODES);
        if Reads(nodes.order, nodes.fields) then (Cache(nodes.order, ReadNodes(nodes.order, nodes.fields)), Loaded) else (EMPTY, Invalid)
  }

  /** One bad record anywhere empties the whole cache. */
  method ParseCache(content: Content) returns (c: Cache, status: Status)
    requires NodesListed(content)
    ensures (c, status) == Read(content)
    ensures status != Loaded ==> c == EMPTY
  {
    if content.Absent? { return EMPTY, Missing; }
    if content.Unreadable? { return EMPTY, Invalid; }
    var j := content.json;
    if !j.Object? || !EqualsOne(Get(j, VERSION)) || !Get(j, NODES).Object? { return EMPTY, Invalid; }
    var nodes := Get(j, NODES);
    var clean := ParseNodes(nodes.order, nodes.fields);
    if clean.None? { return EMPTY, Invalid; }
    return Cache(nodes.order, clean.value), Loaded;
  }

  method ParseNodes(order: seq<string>, fields: map<string, Json>) returns (r: Option<map<string, Services>>)
    requires forall f :: f in order ==> f in fields
    ensures r.Some? <==> Reads(order, fields)
    ensures r.Some? ==> r.value == ReadNodes(order, fields)
  {
    var clean: map<string, Services> := map[];
    for k := 0 to |order|
      invariant Reads(order[..k], fields) && clean == ReadNodes(order[..k], fields)
    {
      var f := order[k];
      TakeStep(order, k);
      assert f in order;
      if |f| != FINGERPRINT_LENGTH { return None; }
      var services := ReadServices(fields[f]);
      if services.None? { return None; }
      clean := clean[f := services.value];
    }
    assert order[..|order|] == order;
    return Some(clean);
  }

  /** The object of records lists each of its keys once, as decoded objects do. */
  ghost predicate NodesListed(content: Content) {
    content.Document? && content.json.Object? && Get(content.json, NODES).Object? ==> ListsKeys(Get(content.json, NODES))
  }

  ghost predicate ListsKeys(j: Json)
    requires j.Object?
  {
    NoDuplicates(j.order) && forall k :: k in j.order <==> k in j.fields
  }

  // ----- writing -----

  function WriteVerdict(v: Verdict): Json { Pair(CHECKED, Int(v.epoch), PASSED, Bool(v.passed)) }

  function WriteVerdicts(s: Services): Json { Object(Sorted(s.Keys), map k | k in s :: WriteVerdict(s[k])) }

  function WriteServices(s: Services): Json { Only(SERVICES, WriteVerdicts(s)) }

  function RecordFields(c: Cache): map<string, Json> { map f | f in c.nodes :: WriteServices(c.nodes[f]) }

  function WriteNodes(c: Cache): Json { Object(Sorted(c.nodes.Keys), RecordFields(c)) }

  /** `json.dumps` with sorted keys. */
  function Write(c: Cache): Json { Pair(NODES, WriteNodes(c), VERSION, Int(1)) }

  /** Fingerprints of the right length and times that are not negative. */
  ghost predicate Storable(c: Cache) {
    && (forall f :: f in c.nodes ==> |f| == FINGERPRINT_LENGTH)
    && (forall f, k :: Recorded(c, f, k) ==> c.nodes[f][k].epoch >= 0)
  }

  lemma VerdictReadsBack(v: Verdict)
    requires v.epoch >= 0
    ensures ReadVerdict(WriteVerdict(v)) == Some(v)
  {
    KeysApart();
    GetPair(CHECKED, Int(v.epoch), PASSED, Bool(v.passed));
  }

  lemma ServicesReadBack(s: Services)
    requires forall k :: k in s ==> s[k].epoch >= 0
    ensures ReadServices(WriteServices(s)) == Some(s)
  {
    GetOnly(SERVICES, WriteVerdicts(s));
    var fields := WriteVerdicts(s).fields;
    forall k | k in s ensures ReadVerdict(fields[k]) == Some(s[k]) { VerdictReadsBack(s[k]); }
    assert (map k | k in fields :: ReadVerdict(fields[k]).value) == s;
  }

  /** A stored cache reads back with the same verdicts, its fingerprints in sorted order. */
  lemma ReadsBack(c: Cache)
    requires Storable(c)
    ensures Read(Document(Write(c))) == (Cache(Sorted(c.nodes.Keys), c.nodes), Loaded)
  {
    KeysApart();
    GetPair(NODES, WriteNodes(c), VERSION, Int(1));
    ReadsBackFrom(Write(c), c, Sorted(c.nodes.Keys));
  }

  lemma ReadsBackFrom(j: Json, c: Cache, order: seq<string>)
    requires Storable(c) && j.Object? && Get(j, VERSION) == Int(1) && Get(j, NODES) == Object(order, RecordFields(c))
    requires forall f :: f in order <==> f in c.nodes
    ensures Read(Document(j)) == (Cache(order, c.nodes), Loaded)
  {
    RecordsRead(c, order);
  }

  lemma RecordReadsBack(c: Cache, f: string)
    requires Storable(c) && f in c.nodes
    ensures f in RecordFields(c) && ReadServices(RecordFields(c)[f]) == Some(c.nodes[f])
  {
    forall k | k in c.nodes[f] ensures c.nodes[f][k].epoch >= 0 { assert Recorded(c, f, k); }
    ServicesReadBack(c.nodes[f]);
  }

  lemma RecordsRead(c: Cache, order: seq<string>)
    requires Storable(c) && forall f :: f in order <==> f in c.nodes
    ensures Reads(order, RecordFields(c)) && ReadNodes(order, RecordFields(c)) == c.nodes
  {
    forall f | f in c.nodes ensures ReadServices(RecordFields(c)[f]) == Some(c.nodes[f]) { RecordReadsBack(c, f); }
    FieldsReadBack(order, RecordFields(c), c.nodes);
  }

  lemma FieldsReadBack(order: seq<string>, fields: map<string, Json>, nodes: map<string, Services>)
    requires fields.Keys == nodes.Keys && forall f :: f in nodes <==> f in order
    requires forall f :: f in nodes ==> ReadServices(fields[f]) == Some(nodes[f]) && |f| == FINGERPRINT_LENGTH
    ensures Reads(order, fields) && ReadNodes(order, fields) == nodes
  {
  }

  /** Whatever is read is fit to be updated and stored again. */
  lemma ReadIsStorable(content: Content)
    requires NodesListed(content)
    ensures WellFormed(Read(content).0) && Storable(Read(content).0)
  {
    if Read(content).1 == Loaded {
      var nodes := Get(content.json, NODES);
      var c := Read(content).0;
      forall f, k | Recorded(c, f, k) ensures c.nodes[f][k].epoch >= 0 { ServicesNotNegative(nodes.fields[f], k); }
    }
  }

  lemma ServicesNotNegative(j: Json, k: string)
    requires ReadServices(j).Some? && k in ReadServices(j).value
    ensures ReadServices(j).value[k].epoch >= 0
  {
    var services := Get(j, SERVICES);
    assert ReadVerdict(services.fields[k]).Some?;
  }

  // ----- runs across stored documents -----

  /** Steps over real fingerprints at times from the epoch on. */
  ghost predicate Plausible(s: Step) { s.updated >= 0 && forall n :: n in s.inventory ==> |s.inventory[n]| == FINGERPRINT_LENGTH }

  lemma {:induction false} RunIsStorable(steps: seq<Step>)
    requires forall s :: s in steps ==> Plausible(s)
    ensures Storable(Run(steps)) && Run(steps).order == Sorted(Run(steps).nodes.Keys)
  {
    if steps != [] {
      var n := |steps| - 1;
      assert Plausible(steps[n]) && forall s :: s in steps[..n] ==> s in steps;
      RunIsStorable(steps[..n]);
      StepIsStorable(Run(steps[..n]), steps[n]);
    } else {
      assert Sorted({}) == [];
    }
  }

  lemma StepIsStorable(c: Cache, s: Step)
    requires WellFormed(c) && Storable(c) && c.order == Sorted(c.nodes.Keys) && Plausible(s)
    ensures Storable(After(c, s)) && After(c, s).order == Sorted(After(c, s).nodes.Keys)
  {
    var live := Decided(c, s).live;
    LiveListed(c, s);
    if !s.outcome.SentinelGate? && live != {} { UpdateIsStorable(c, s.inventory, s.service, live, s.sweep * live, s.updated); }
  }

  lemma UpdateIsStorable(c: Cache, inventory: QualificationCache.Inventory, service: string, checked: set<string>, passed: set<string>, now: int)
    requires WellFormed(c) && Storable(c) && checked <= inventory.Keys && now >= 0
    requires forall n :: n in inventory ==> |inventory[n]| == FINGERPRINT_LENGTH
    ensures var u := Updated(c, inventory, service, checked, passed, now); Storable(u) && u.order == Sorted(u.nodes.Keys)
  {
    var u := Updated(c, inventory, service, checked, passed, now);
    forall f | f in u.nodes ensures |f| == FINGERPRINT_LENGTH { MergedAt(c, inventory, service, checked, passed, now, f); }
    forall f, k | Recorded(u, f, k) ensures u.nodes[f][k].epoch >= 0 { VerdictOrigin(c, inventory, service, checked, passed, now, f, k); }
  }

  /** Storing the cache of a run and loading it again for the next changes nothing. */
  lemma RunSurvivesStorage(steps: seq<Step>)
    requires forall s :: s in steps ==> Plausible(s)
    ensures Read(Document(Write(Run(steps)))) == (Run(steps), Loaded)
  {
    RunIsStorable(steps);
    ReadsBack(Run(steps));
  }
}
