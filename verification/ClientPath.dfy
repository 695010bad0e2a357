/** Client-path hardening: every OpenAI region gets its own runtime provider of renamed nodes. */
module ClientPath {
  import opened Ordering
  import opened Results
  import opened Routing
  import opened Sifting
  import opened Validator
  import opened GroupLiveness
  import GroupCycles
  import ExactFilter
  import ServiceRules

  const TARGET := ServiceRules.OPENAI_TARGET
  const ANCHOR_PREFIX := "__CR_AI_OPENAI_"
  const RUNTIME_PREFIX := "cr_openai_runtime_"
  const MARK := " [OAI:"

  function ProviderHealth(): map<string, string> {
    map["enable" := "true", "url" := "https://android.chat.openai.com/", "interval" := "120", "timeout" := "5000",
        "lazy" := "false", "expected-status" := "200-399/400-499"]
  }

  function TargetFields(): map<string, string> {
    map["url" := "https://android.chat.openai.com/", "interval" := "120", "timeout" := "5000",
        "lazy" := "false", "expected-status" := "200-399/400-499", "max-failed-times" := "2"]
  }

  /**
   What Python's libraries answer: the two truncated SHA-256 digests, of which only the length of the second is relied on,
   and `re` on filter texts outside the modelled fragment, whether they compile and what they match in full.
   */
  datatype Library = Library(provider: string -> string, proxy: (string, string) -> string,
                             compiles: string -> bool, matches: (string, string) -> bool)

  ghost predicate EightDigits(lib: Library) { forall a, b :: |lib.proxy(a, b)| == 8 }

  function RuntimeProviderName(anchor: string, lib: Library): string { RUNTIME_PREFIX + lib.provider(anchor) }

  function RuntimeName(anchor: string, original: string, lib: Library): string { original + MARK + lib.proxy(anchor, original) + "]" }

  /** The original name can be read off the runtime name, whatever the digest. */
  lemma RuntimeNameInjective(anchor: string, a: string, b: string, lib: Library)
    requires EightDigits(lib) && RuntimeName(anchor, a, lib) == RuntimeName(anchor, b, lib)
    ensures a == b
  {
    var x, y := RuntimeName(anchor, a, lib), RuntimeName(anchor, b, lib);
    assert |x| == |a| + 15 && |y| == |b| + 15;
    assert x[..|a|] == a && y[..|b|] == b;
  }

  /** The mark occurs somewhere in the name. */
  predicate Marked(name: string) { MARK <= name || (name != "" && Marked(name[1..])) }

  lemma {:induction false} MarkedWithin(head: string, tail: string)
    requires MARK <= tail
    ensures Marked(head + tail)
  {
    if head == "" {
      assert head + tail == tail;
    } else {
      assert (head + tail)[1..] == head[1..] + tail;
      MarkedWithin(head[1..], tail);
    }
  }

  lemma RuntimeNameMarked(anchor: string, original: string, lib: Library)
    ensures Marked(RuntimeName(anchor, original, lib))
  {
    var tail := MARK + lib.proxy(anchor, original) + "]";
    MarkedWithin(original, tail);
    assert RuntimeName(anchor, original, lib) == original + tail;
  }

  // ----- cloning a provider -----

  predicate Compiles(pattern: string, lib: Library) { ExactFilter.Parse(pattern).Some? || lib.compiles(pattern) }

  predicate Matches(pattern: string, name: string, lib: Library) {
    if ExactFilter.Parse(pattern).Some? then ExactFilter.FullMatch(ExactFilter.Python, pattern, name) else lib.matches(pattern, name)
  }

  function Selected(payload: seq<Proxy>, pattern: string, lib: Library): (r: seq<Proxy>)
    ensures forall p :: p in r <==> p in payload && Matches(pattern, p.name, lib)
  {
    if payload == [] then []
    else
      var n := |payload| - 1;
      assert payload == payload[..n] + [payload[n]];
      Selected(payload[..n], pattern, lib) + if Matches(pattern, payload[n].name, lib) then [payload[n]] else []
  }

  /** The selection keeps the order of the payload. */
  lemma {:induction false} SelectedInOrder(payload: seq<Proxy>, pattern: string, lib: Library)
    ensures Sifted(payload, (p: Proxy) => Matches(pattern, p.name, lib), Selected(payload, pattern, lib))
  {
    var keep := (p: Proxy) => Matches(pattern, p.name, lib);
    if payload == [] {
      SiftedEmpty(keep);
    } else {
      var n := |payload| - 1;
      assert payload == payload[..n] + [payload[n]];
      SelectedInOrder(payload[..n], pattern, lib);
      SiftedSnoc(payload[..n], payload[n], keep, Selected(payload[..n], pattern, lib));
    }
  }

  function Renamed(payload: seq<Proxy>, anchor: string, lib: Library): seq<Proxy> {
    seq(|payload|, i requires 0 <= i < |payload| => payload[i].(name := RuntimeName(anchor, payload[i].name, lib)))
  }

  /** The clone of a source provider for one anchor; `None` where the code raises. */
  function RuntimeProvider(source: Provider, anchor: string, pattern: string, lib: Library): Option<Provider> {
    if source.payload.None? || !Compiles(pattern, lib) || Selected(source.payload.value, pattern, lib) == [] then None
    else Some(Provider("inline", ProviderHealth(), Some(Renamed(Selected(source.payload.value, pattern, lib), anchor, lib)), source.rest))
  }

  function AnchorGroup(name: string, lib: Library): Group { Group(name, "fallback", true, [RuntimeProviderName(name, lib)], [], None, map[]) }

  function HardenedTarget(references: seq<string>): Group { Group(TARGET, "fallback", true, [], references, None, TargetFields()) }

  /** Replaces the group of that name in place. */
  function Replace(groups: seq<Group>, g: Group): seq<Group> {
    seq(|groups|, i requires 0 <= i < |groups| => if groups[i].name == g.name then g else groups[i])
  }

  // ----- the two read-only checks -----

  predicate HardenedAnchor(groups: seq<Group>, name: string) {
    var a := Find(groups, name);
    a.Some? && a.value.kind == "fallback" && |a.value.uses| == 1 && RUNTIME_PREFIX <= a.value.uses[0]
  }

  predicate IsHardened(groups: seq<Group>) {
    && UniqueNames(groups)
    && var t := Find(groups, TARGET);
    && t.Some?
    && (t.value.proxies == ["REJECT"]
        || (t.value.kind == "fallback" && t.value.proxies != [] && forall m :: m in t.value.proxies ==> HardenedAnchor(groups, m)))
  }

  datatype Status = PreQualification | FailClosed | Passed | Hardened

  datatype PathReport = PathReport(status: Status, regions: nat, providers: nat, nodes: nat)

  predicate AnchorPasses(providers: map<string, Provider>, groups: seq<Group>, name: string) {
    && ANCHOR_PREFIX <= name
    && var a := Find(groups, name);
    && a.Some? && a.value.hidden && a.value.kind == "fallback" && |a.value.uses| == 1 && RUNTIME_PREFIX <= a.value.uses[0]
    && a.value.uses[0] in providers
    && var p := providers[a.value.uses[0]];
    && p.kind == "inline" && p.healthCheck == ProviderHealth() && p.payload.Some? && p.payload.value != []
    && forall x :: x in p.payload.value ==> Marked(x.name)
  }

  function RuntimeOf(groups: seq<Group>, name: string): string {
    var a := Find(groups, name);
    if a.Some? && |a.value.uses| == 1 then a.value.uses[0] else ""
  }

  function NodesOf(providers: map<string, Provider>, groups: seq<Group>, names: seq<string>): nat {
    if names == [] then 0
    else
      var n := |names| - 1;
      var p := RuntimeOf(groups, names[n]);
      NodesOf(providers, groups, names[..n]) + if p in providers && providers[p].payload.Some? then |providers[p].payload.value| else 0
  }

  function AuditClientPath(providers: map<string, Provider>, groups: seq<Group>): Result<PathReport> {
    if !UniqueNames(groups) then Raised("duplicate proxy groups")
    else
      var t := Find(groups, TARGET);
      if t.None? then Ok(PathReport(PreQualification, 0, 0, 0))
      else
        var references := t.value.proxies;
        if references == ["REJECT"] then Ok(PathReport(FailClosed, 0, 0, 0))
        else if t.value.kind != "fallback" || references == [] then Raised("must be a client-path fallback")
        else if exists k :: k in TargetFields() && (k !in t.value.test || t.value.test[k] != TargetFields()[k]) then Raised("target health-check contract drifted")
        else if exists m :: m in references && !AnchorPasses(providers, groups, m) then Raised("anchor or runtime provider drifted")
        else Ok(PathReport(Passed, |references|, |set m | m in references :: RuntimeOf(groups, m)|, NodesOf(providers, groups, references)))
  }

  // ----- hardening -----

  /** An anchor as the service rewrite leaves it: hidden, one provider, a filter. */
  predicate Hardenable(providers: map<string, Provider>, groups: seq<Group>, name: string) {
    && ANCHOR_PREFIX <= name
    && var a := Find(groups, name);
    && a.Some? && a.value.hidden && |a.value.uses| == 1 && a.value.filter.Some? && a.value.uses[0] in providers
  }

  /** The runtime provider an anchor would get now; `None` where hardening it raises. */
  function RuntimeFor(providers: map<string, Provider>, groups: seq<Group>, name: string, lib: Library): Option<Provider> {
    if !Hardenable(providers, groups, name) || RuntimeProviderName(name, lib) in providers then None
    else
      var a := Find(groups, name).value;
      RuntimeProvider(providers[a.uses[0]], name, a.filter.value, lib)
  }

  /** One anchor: its runtime provider is inserted and the anchor rewritten in place. */
  method HardenAnchor(config: Config, name: string, lib: Library) returns (r: Result<nat>)
    modifies config`providers, config`groups
    ensures r.Ok? <==> RuntimeFor(old(config.providers), old(config.groups), name, lib).Some?
    ensures r.Ok? ==> var runtime := RuntimeFor(old(config.providers), old(config.groups), name, lib).value;
                      && config.providers == old(config.providers)[RuntimeProviderName(name, lib) := runtime]
                      && runtime.payload.Some? && r.value == |runtime.payload.value|
    ensures r.Ok? ==> config.groups == Replace(old(config.groups), AnchorGroup(name, lib))
  {
    if !(ANCHOR_PREFIX <= name) { return Raised("non-OpenAI anchor"); }
    var anchor := Find(config.groups, name);
    if anchor.None? || !anchor.value.hidden { return Raised("missing/non-hidden anchor"); }
    if |anchor.value.uses| != 1 || anchor.value.filter.None? { return Raised("not a qualified provider filter"); }
    var source := anchor.value.uses[0];
    if source !in config.providers { return Raised("missing provider"); }
    if RuntimeProviderName(name, lib) in config.providers { return Raised("runtime provider name collision"); }
    var runtime := RuntimeProvider(config.providers[source], name, anchor.value.filter.value, lib);
    if runtime.None? { return Raised("anchor resolved to no qualified nodes"); }
    config.providers := config.providers[RuntimeProviderName(name, lib) := runtime.value];
    config.groups := Replace(config.groups, AnchorGroup(name, lib));
    return Ok(|runtime.value.payload.value|);
  }

  function RuntimeNames(references: seq<string>, lib: Library): set<string> { set m | m in references :: RuntimeProviderName(m, lib) }

  /** The groups once the anchors of `done` are hardened. */
  function AnchorsReplaced(groups: seq<Group>, done: seq<string>, lib: Library): seq<Group> {
    seq(|groups|, i requires 0 <= i < |groups| => if groups[i].name in done then AnchorGroup(groups[i].name, lib) else groups[i])
  }

  /** The runtime provider of an anchor is the renamed selection of its source, when the source was declared. */
  ghost predicate ClonedFrom(before: map<string, Provider>, after: map<string, Provider>, groups: seq<Group>, name: string, lib: Library) {
    && RuntimeProviderName(name, lib) in after
    && var runtime := after[RuntimeProviderName(name, lib)];
    && runtime.kind == "inline" && runtime.healthCheck == ProviderHealth() && runtime.payload.Some? && runtime.payload.value != []
    && (forall x :: x in runtime.payload.value ==> Marked(x.name))
    && var a := Find(groups, name);
    && a.Some? && |a.value.uses| == 1 && a.value.filter.Some?
    && (a.value.uses[0] in before ==> RuntimeProvider(before[a.value.uses[0]], name, a.value.filter.value, lib) == Some(runtime))
  }

  /** The provider table: one new key per anchor, nothing else touched. */
  ghost predicate KeysFrom(before: map<string, Provider>, after: map<string, Provider>, done: seq<string>, lib: Library) {
    && NoDuplicates(done)
    && after.Keys == before.Keys + RuntimeNames(done, lib) && before.Keys !! RuntimeNames(done, lib)
    && |RuntimeNames(done, lib)| == |done|
    && (forall p :: p in before ==> after[p] == before[p])
  }

  ghost predicate ClonesFrom(before: map<string, Provider>, after: map<string, Provider>, groups: seq<Group>, done: seq<string>, lib: Library) {
    forall m :: m in done ==> ANCHOR_PREFIX <= m && ClonedFrom(before, after, groups, m, lib)
  }

  ghost predicate ProvidersFrom(before: map<string, Provider>, after: map<string, Provider>, groups: seq<Group>, done: seq<string>, lib: Library) {
    KeysFrom(before, after, done, lib) && ClonesFrom(before, after, groups, done, lib)
  }

  /** Everything hardening changes, and everything it leaves alone. */
  ghost predicate HardenedFrom(before: map<string, Provider>, groups: seq<Group>, after: map<string, Provider>, final: seq<Group>,
                               references: seq<string>, lib: Library)
  {
    && references != [] && ProvidersFrom(before, after, groups, references, lib)
    && final == Replace(AnchorsReplaced(groups, references, lib), HardenedTarget(references))
  }

  /** How many nodes the runtime providers of the anchors hold. */
  function RuntimeNodes(providers: map<string, Provider>, done: seq<string>, lib: Library): nat {
    if done == [] then 0
    else
      var n := |done| - 1;
      var p := RuntimeProviderName(done[n], lib);
      RuntimeNodes(providers, done[..n], lib) + if p in providers && providers[p].payload.Some? then |providers[p].payload.value| else 0
  }

  // ----- lookups after an in-place change -----

  /** A change that keeps every name is seen by looking the name up. */
  lemma {:induction false} FindMapped(a: seq<Group>, b: seq<Group>, i: nat)
    requires |a| == |b| && (forall j :: 0 <= j < |a| ==> a[j].name == b[j].name)
    requires UniqueNames(a) && i < |a|
    ensures Find(b, a[i].name) == Some(b[i]) && Find(a, a[i].name) == Some(a[i])
  {
    FindUnique(b, i);
    FindUnique(a, i);
  }

  lemma FindIndex(groups: seq<Group>, name: string) returns (i: nat)
    requires Find(groups, name).Some?
    ensures i < |groups| && groups[i] == Find(groups, name).value
  {
    i :| 0 <= i < |groups| && groups[i] == Find(groups, name).value;
  }

  lemma PrefixNotTarget(name: string)
    requires ANCHOR_PREFIX <= name
    ensures name != TARGET && name != "REJECT" && name !in BUILTINS
  {
    assert name[8] == ANCHOR_PREFIX[8] == 'O' && TARGET[8] == 'S';
    assert name[0] == '_';
    assert forall b :: b in BUILTINS ==> b[0] != '_';
    assert "REJECT" in BUILTINS;
  }

  /** What the final groups hold under the names that matter. */
  lemma FinalLookup(groups: seq<Group>, references: seq<string>, lib: Library, name: string)
    requires UniqueNames(groups) && Find(groups, name).Some?
    requires forall m :: m in references ==> ANCHOR_PREFIX <= m
    ensures var final := Replace(AnchorsReplaced(groups, references, lib), HardenedTarget(references));
            && UniqueNames(final)
            && Find(final, name) == Some(if name == TARGET then HardenedTarget(references)
                                         else if name in references then AnchorGroup(name, lib)
                                         else Find(groups, name).value)
  {
    var final := Replace(AnchorsReplaced(groups, references, lib), HardenedTarget(references));
    var i := FindIndex(groups, name);
    FindMapped(groups, final, i);
  }

  // ----- one anchor at a time -----

  /** An anchor that can still be hardened has not been hardened yet. */
  lemma StillHardenable(providers: map<string, Provider>, groups: seq<Group>, done: seq<string>, name: string, lib: Library)
    requires UniqueNames(groups) && Hardenable(providers, AnchorsReplaced(groups, done, lib), name)
    ensures name !in done && Find(groups, name) == Find(AnchorsReplaced(groups, done, lib), name)
  {
    var replaced := AnchorsReplaced(groups, done, lib);
    var i := FindIndex(replaced, name);
    FindMapped(groups, replaced, i);
  }

  lemma KeysStep(before: map<string, Provider>, mid: map<string, Provider>, done: seq<string>, name: string, runtime: Provider, lib: Library)
    requires KeysFrom(before, mid, done, lib) && name !in done && RuntimeProviderName(name, lib) !in mid
    ensures KeysFrom(before, mid[RuntimeProviderName(name, lib) := runtime], done + [name], lib)
  {
    var key := RuntimeProviderName(name, lib);
    RuntimeNamesStep(done, name, lib);
    InsertKey(before, mid, RuntimeNames(done, lib), key, runtime);
  }

  /** Inserting a fresh key keeps a table split into old keys and new ones. */
  lemma InsertKey(before: map<string, Provider>, mid: map<string, Provider>, names: set<string>, key: string, runtime: Provider)
    requires mid.Keys == before.Keys + names && before.Keys !! names && key !in mid
    requires forall p :: p in before ==> mid[p] == before[p]
    ensures mid[key := runtime].Keys == before.Keys + (names + {key}) && before.Keys !! (names + {key})
    ensures |names + {key}| == |names| + 1
    ensures forall p :: p in before ==> mid[key := runtime][p] == before[p]
  {
    assert key !in names;
  }

  lemma RuntimeNamesStep(done: seq<string>, name: string, lib: Library)
    ensures RuntimeNames(done + [name], lib) == RuntimeNames(done, lib) + {RuntimeProviderName(name, lib)}
    ensures name !in done && NoDuplicates(done) ==> NoDuplicates(done + [name])
  {
    assert forall m :: m in done + [name] <==> m in done || m == name;
  }

  lemma ClonesStep(before: map<string, Provider>, mid: map<string, Provider>, groups: seq<Group>, done: seq<string>, name: string,
                   runtime: Provider, lib: Library)
    requires ClonesFrom(before, mid, groups, done, lib) && ANCHOR_PREFIX <= name && RuntimeProviderName(name, lib) !in mid
    requires forall p :: p in before ==> p in mid && mid[p] == before[p]
    requires var a := Find(groups, name);
             && a.Some? && |a.value.uses| == 1 && a.value.filter.Some? && a.value.uses[0] in mid
             && RuntimeProvider(mid[a.value.uses[0]], name, a.value.filter.value, lib) == Some(runtime)
    ensures ClonesFrom(before, mid[RuntimeProviderName(name, lib) := runtime], groups, done + [name], lib)
  {
    var after := mid[RuntimeProviderName(name, lib) := runtime];
    var a := Find(groups, name).value;
    RuntimeMarked(mid[a.uses[0]], name, a.filter.value, lib);
    assert ClonedFrom(before, after, groups, name, lib);
    forall m | m in done ensures ClonedFrom(before, after, groups, m, lib) {
      assert ClonedFrom(before, mid, groups, m, lib);
    }
  }

  lemma AnchorStep(before: map<string, Provider>, mid: map<string, Provider>, groups: seq<Group>, done: seq<string>, name: string,
                   runtime: Provider, lib: Library)
    requires UniqueNames(groups) && ProvidersFrom(before, mid, groups, done, lib)
    requires RuntimeFor(mid, AnchorsReplaced(groups, done, lib), name, lib) == Some(runtime) && runtime.payload.Some?
    ensures var after := mid[RuntimeProviderName(name, lib) := runtime];
            && ProvidersFrom(before, after, groups, done + [name], lib)
            && RuntimeNodes(after, done + [name], lib) == RuntimeNodes(mid, done, lib) + |runtime.payload.value|
  {
    StillHardenable(mid, groups, done, name, lib);
    KeysStep(before, mid, done, name, runtime, lib);
    ClonesStep(before, mid, groups, done, name, runtime, lib);
    CountStep(before, mid, done, name, runtime, lib);
  }

  lemma CountStep(before: map<string, Provider>, mid: map<string, Provider>, done: seq<string>, name: string, runtime: Provider, lib: Library)
    requires KeysFrom(before, mid, done, lib) && RuntimeProviderName(name, lib) !in mid && runtime.payload.Some?
    ensures RuntimeNodes(mid[RuntimeProviderName(name, lib) := runtime], done + [name], lib) == RuntimeNodes(mid, done, lib) + |runtime.payload.value|
  {
    assert forall m :: m in done ==> RuntimeProviderName(m, lib) in RuntimeNames(done, lib);
    RuntimeNodesStep(mid, done, RuntimeProviderName(name, lib), runtime, lib);
    assert (done + [name])[..|done|] == done;
  }

  lemma RuntimeMarked(source: Provider, anchor: string, pattern: string, lib: Library)
    requires RuntimeProvider(source, anchor, pattern, lib).Some?
    ensures var r := RuntimeProvider(source, anchor, pattern, lib).value;
            r.payload.Some? && r.payload.value != [] && forall x :: x in r.payload.value ==> Marked(x.name)
  {
    var selected := Selected(source.payload.value, pattern, lib);
    var renamed := Renamed(selected, anchor, lib);
    forall x | x in renamed ensures Marked(x.name) {
      var i :| 0 <= i < |renamed| && renamed[i] == x;
      RuntimeNameMarked(anchor, selected[i].name, lib);
    }
  }

  lemma ReplaceStep(groups: seq<Group>, done: seq<string>, name: string, lib: Library)
    ensures Replace(AnchorsReplaced(groups, done, lib), AnchorGroup(name, lib)) == AnchorsReplaced(groups, done + [name], lib)
  {
  }

  lemma {:induction false} RuntimeNodesStep(providers: map<string, Provider>, done: seq<string>, name: string, runtime: Provider, lib: Library)
    requires name !in providers
    requires forall m :: m in done ==> RuntimeProviderName(m, lib) in providers
    ensures RuntimeNodes(providers[name := runtime], done, lib) == RuntimeNodes(providers, done, lib)
  {
    if done != [] {
      assert done[|done| - 1] in done;
      RuntimeNodesStep(providers, done[..|done| - 1], name, runtime, lib);
    }
  }

  /** Every anchor can be hardened as it stands, and its runtime provider has a name of its own. */
  ghost predicate Hardens(providers: map<string, Provider>, groups: seq<Group>, references: seq<string>, lib: Library) {
    references == []
    || var k := |references| - 1;
       && Hardens(providers, groups, references[..k], lib) && RuntimeFor(providers, groups, references[k], lib).Some?
       && RuntimeProviderName(references[k], lib) !in RuntimeNames(references[..k], lib)
  }

  lemma {:induction false} HardensPrefix(providers: map<string, Provider>, groups: seq<Group>, references: seq<string>, n: nat, lib: Library)
    requires n <= |references|
    ensures Hardens(providers, groups, references, lib) ==> Hardens(providers, groups, references[..n], lib)
  {
    if n < |references| {
      HardensPrefix(providers, groups, references[..|references| - 1], n, lib);
      assert references[..|references| - 1][..n] == references[..n];
    } else {
      assert references[..n] == references;
    }
  }

  lemma HardensLast(providers: map<string, Provider>, groups: seq<Group>, done: seq<string>, name: string, lib: Library)
    requires Hardens(providers, groups, done, lib)
    ensures Hardens(providers, groups, done + [name], lib)
            <==> RuntimeFor(providers, groups, name, lib).Some? && RuntimeProviderName(name, lib) !in RuntimeNames(done, lib)
  {
    assert (done + [name])[..|done|] == done;
  }

  /** Among valid groups an anchor can be hardened now exactly when it could at the start and its runtime name is new. */
  lemma RuntimeForThen(before: map<string, Provider>, mid: map<string, Provider>, groups: seq<Group>, done: seq<string>, name: string, lib: Library)
    requires UniqueNames(groups) && Supplied(before, groups) && KeysFrom(before, mid, done, lib)
    ensures RuntimeFor(mid, AnchorsReplaced(groups, done, lib), name, lib).Some?
            <==> RuntimeFor(before, groups, name, lib).Some? && RuntimeProviderName(name, lib) !in RuntimeNames(done, lib)
  {
    var replaced := AnchorsReplaced(groups, done, lib);
    if RuntimeFor(mid, replaced, name, lib).Some? {
      StillHardenable(mid, groups, done, name, lib);
    } else if RuntimeFor(before, groups, name, lib).Some? && RuntimeProviderName(name, lib) !in RuntimeNames(done, lib) {
      assert name !in done;
      var i := FindIndex(groups, name);
      FindMapped(groups, replaced, i);
    }
  }

  /** Whether the anchors so far could be hardened at the start, told among valid groups only. */
  ghost predicate HardensSoFar(before: map<string, Provider>, groups: seq<Group>, done: seq<string>, lib: Library) {
    Supplied(before, groups) ==> Hardens(before, groups, done, lib)
  }

  lemma HardensNext(before: map<string, Provider>, mid: map<string, Provider>, groups: seq<Group>, done: seq<string>, name: string, lib: Library)
    requires UniqueNames(groups) && KeysFrom(before, mid, done, lib) && HardensSoFar(before, groups, done, lib)
    ensures Supplied(before, groups) ==>
              (RuntimeFor(mid, AnchorsReplaced(groups, done, lib), name, lib).Some? <==> Hardens(before, groups, done + [name], lib))
  {
    if Supplied(before, groups) {
      RuntimeForThen(before, mid, groups, done, name, lib);
      HardensLast(before, groups, done, name, lib);
    }
  }

  /** Providers and groups once the anchors of `done` are hardened. */
  ghost predicate Progress(providers: map<string, Provider>, now: seq<Group>, before: map<string, Provider>, groups: seq<Group>,
                           done: seq<string>, nodes: nat, lib: Library) {
    && ProvidersFrom(before, providers, groups, done, lib) && now == AnchorsReplaced(groups, done, lib)
    && nodes == RuntimeNodes(providers, done, lib) && HardensSoFar(before, groups, done, lib)
  }

  /** One more anchor, told against the configuration the hardening started from. */
  method HardenNext(config: Config, name: string, lib: Library, ghost before: map<string, Provider>, ghost groups: seq<Group>, ghost done: seq<string>, nodes: nat)
    returns (r: Result<nat>)
    requires nodes == RuntimeNodes(config.providers, done, lib)
    requires UniqueNames(groups) && ProvidersFrom(before, config.providers, groups, done, lib)
    requires config.groups == AnchorsReplaced(groups, done, lib) && HardensSoFar(before, groups, done, lib)
    modifies config`providers, config`groups
    ensures Supplied(before, groups) ==> (r.Ok? <==> Hardens(before, groups, done + [name], lib))
    ensures r.Ok? ==> ProvidersFrom(before, config.providers, groups, done + [name], lib)
    ensures r.Ok? ==> config.groups == AnchorsReplaced(groups, done + [name], lib)
    ensures r.Ok? ==> r.value == RuntimeNodes(config.providers, done + [name], lib)
  {
    ghost var runtime := RuntimeFor(config.providers, config.groups, name, lib);
    if runtime.Some? { AnchorStep(before, config.providers, groups, done, name, runtime.value, lib); }
    ReplaceStep(groups, done, name, lib);
    HardensNext(before, config.providers, groups, done, name, lib);
    var hardened := HardenAnchor(config, name, lib);
    if hardened.Raised? { return hardened; }
    return Ok(nodes + hardened.value);
  }

  lemma NothingHardened(before: map<string, Provider>, groups: seq<Group>, none: seq<string>, lib: Library)
    requires none == []
    ensures Progress(before, groups, before, groups, none, 0, lib)
  {
  }

  /** Hardens the anchors in order; a repeated reference raises, since its anchor has lost its filter. */
  method HardenAnchors(config: Config, references: seq<string>, lib: Library) returns (r: Result<nat>)
    requires UniqueNames(config.groups)
    modifies config`providers, config`groups
    ensures Supplied(old(config.providers), old(config.groups)) ==>
              (r.Ok? <==> Hardens(old(config.providers), old(config.groups), references, lib))
    ensures r.Ok? ==> ProvidersFrom(old(config.providers), config.providers, old(config.groups), references, lib)
    ensures r.Ok? ==> config.groups == AnchorsReplaced(old(config.groups), references, lib)
    ensures r.Ok? ==> r.value == RuntimeNodes(config.providers, references, lib)
  {
    ghost var before, groups := config.providers, config.groups;
    var nodes := 0;
    NothingHardened(before, groups, references[..0], lib);
    for k := 0 to |references|
      invariant Progress(config.providers, config.groups, before, groups, references[..k], nodes, lib)
    {
      TakeStep(references, k);
      HardensPrefix(before, groups, references, k + 1, lib);
      var hardened := HardenNext(config, references[k], lib, before, groups, references[..k], nodes);
      if hardened.Raised? { return hardened; }
      nodes := hardened.value;
    }
    assert references[..|references|] == references;
    return Ok(nodes);
  }

  method ApplyClientPathHardening(search: Search, config: Config, lib: Library) returns (r: Result<PathReport>)
    modifies config`providers, config`groups
    ensures IsHardened(old(config.groups)) ==>
              config.providers == old(config.providers) && config.groups == old(config.groups)
              && r == AuditClientPath(config.providers, config.groups)
    ensures Validated(search, old(config.providers), old(config.groups), config.ruleProviders, config.rules) && !IsHardened(old(config.groups)) ==>
              (r.Ok? <==> var t := Find(old(config.groups), TARGET);
                          t.Some? && t.value.proxies != [] && Hardens(old(config.providers), old(config.groups), t.value.proxies, lib))
    ensures r.Ok? ==> IsHardened(config.groups)
    ensures r.Ok? && !IsHardened(old(config.groups)) ==>
              && Find(old(config.groups), TARGET).Some?
              && HardenedFrom(old(config.providers), old(config.groups), config.providers, config.groups, Find(old(config.groups), TARGET).value.proxies, lib)
              && Validated(search, config.providers, config.groups, config.ruleProviders, config.rules)
    ensures r.Ok? && !IsHardened(old(config.groups)) ==>
              && r.value.status == Hardened
              && AuditClientPath(config.providers, config.groups) == Ok(PathReport(Passed, r.value.regions, r.value.providers, r.value.nodes))
  {
    if IsHardened(config.groups) { return AuditClientPath(config.providers, config.groups); }
    if !UniqueNames(config.groups) { return Raised("duplicate proxy groups"); }
    var target := Find(config.groups, TARGET);
    if target.None? { return Raised("requires the OpenAI service target"); }
    var references := target.value.proxies;
    if references == [] { return Raised("no runtime regions"); }
    ghost var before, groups := config.providers, config.groups;
    var nodes := HardenAnchors(config, references, lib);
    if nodes.Raised? { return Raised(nodes.reason); }
    config.groups := Replace(config.groups, HardenedTarget(references));
    HardenedStaysValid(search, before, groups, config.providers, config.groups, config.ruleProviders, config.rules, references, lib);
    var valid := ValidateGenerated(search, config.providers, config.groups, config.ruleProviders, config.rules);
    if !valid { return Raised("generated configuration is invalid"); }
    HardenedPasses(before, groups, config.providers, config.groups, references, lib);
    var report := AuditClientPath(config.providers, config.groups);
    if report.Raised? { return report; }
    return Ok(report.value.(status := Hardened, nodes := nodes.value, providers := |references|));
  }

  // ----- what hardening guarantees -----

  lemma AnchorStands(before: map<string, Provider>, groups: seq<Group>, after: map<string, Provider>, final: seq<Group>,
                     references: seq<string>, lib: Library, m: string)
    requires UniqueNames(groups) && HardenedFrom(before, groups, after, final, references, lib) && m in references
    ensures Find(final, m) == Some(AnchorGroup(m, lib)) && AnchorPasses(after, final, m) && HardenedAnchor(final, m)
    ensures RuntimeOf(final, m) == RuntimeProviderName(m, lib)
  {
    assert ClonedFrom(before, after, groups, m, lib);
    PrefixNotTarget(m);
    FinalLookup(groups, references, lib, m);
    assert RUNTIME_PREFIX <= RuntimeProviderName(m, lib);
  }

  lemma {:induction false} SameNodes(after: map<string, Provider>, final: seq<Group>, done: seq<string>, lib: Library)
    requires forall m :: m in done ==> RuntimeOf(final, m) == RuntimeProviderName(m, lib)
    ensures NodesOf(after, final, done) == RuntimeNodes(after, done, lib)
    ensures (set m | m in done :: RuntimeOf(final, m)) == RuntimeNames(done, lib)
  {
    if done != [] {
      assert done[|done| - 1] in done;
      SameNodes(after, final, done[..|done| - 1], lib);
      assert done == done[..|done| - 1] + [done[|done| - 1]];
    }
  }

  /** A target whose anchors all pass is what the audit passes. */
  lemma AuditPasses(providers: map<string, Provider>, groups: seq<Group>, references: seq<string>)
    requires UniqueNames(groups) && Find(groups, TARGET) == Some(HardenedTarget(references))
    requires references != [] && references[0] != "REJECT"
    requires forall m :: m in references ==> AnchorPasses(providers, groups, m)
    ensures AuditClientPath(providers, groups)
            == Ok(PathReport(Passed, |references|, |set m | m in references :: RuntimeOf(groups, m)|, NodesOf(providers, groups, references)))
  {
    var t := HardenedTarget(references);
    assert t.test == TargetFields() && t.proxies == references;
  }

  lemma AllStand(before: map<string, Provider>, groups: seq<Group>, after: map<string, Provider>, final: seq<Group>,
                 references: seq<string>, lib: Library)
    requires UniqueNames(groups) && HardenedFrom(before, groups, after, final, references, lib)
    ensures forall m :: m in references ==>
              AnchorPasses(after, final, m) && HardenedAnchor(final, m) && RuntimeOf(final, m) == RuntimeProviderName(m, lib)
  {
    forall m | m in references
      ensures AnchorPasses(after, final, m) && HardenedAnchor(final, m) && RuntimeOf(final, m) == RuntimeProviderName(m, lib)
    {
      AnchorStands(before, groups, after, final, references, lib, m);
    }
  }

  /** A hardened configuration passes the audit, which counts what hardening created. */
  lemma HardenedPasses(before: map<string, Provider>, groups: seq<Group>, after: map<string, Provider>, final: seq<Group>,
                       references: seq<string>, lib: Library)
    requires UniqueNames(groups) && Find(groups, TARGET).Some? && HardenedFrom(before, groups, after, final, references, lib)
    ensures AuditClientPath(after, final) == Ok(PathReport(Passed, |references|, |references|, RuntimeNodes(after, references, lib)))
    ensures IsHardened(final)
  {
    FinalLookup(groups, references, lib, TARGET);
    assert references[0] in references;
    PrefixNotTarget(references[0]);
    AllStand(before, groups, after, final, references, lib);
    SameNodes(after, final, references, lib);
    AuditPasses(after, final, references);
  }

  /** A hardened group uses its runtime provider, refers to anchors of the list, or is what it was. */
  lemma FinalGroup(groups: seq<Group>, references: seq<string>, lib: Library, g: Group)
    requires g in Replace(AnchorsReplaced(groups, references, lib), HardenedTarget(references))
    ensures g in groups || g == HardenedTarget(references) || exists m :: m in references && g == AnchorGroup(m, lib)
  {
    var replaced := AnchorsReplaced(groups, references, lib);
    var i :| 0 <= i < |groups| && Replace(replaced, HardenedTarget(references))[i] == g;
    assert groups[i] in groups;
  }

  lemma FinalDefined(groups: seq<Group>, references: seq<string>, lib: Library, name: string)
    requires UniqueNames(groups) && Defined(groups, name) && forall m :: m in references ==> ANCHOR_PREFIX <= m
    ensures Defined(Replace(AnchorsReplaced(groups, references, lib), HardenedTarget(references)), name)
  {
    if name !in BUILTINS { FinalLookup(groups, references, lib, name); }
  }

  lemma HardenedSupplied(before: map<string, Provider>, groups: seq<Group>, after: map<string, Provider>, final: seq<Group>,
                         references: seq<string>, lib: Library)
    requires HardenedFrom(before, groups, after, final, references, lib) && Supplied(before, groups) && Filled(before)
    ensures Supplied(after, final) && Filled(after)
  {
    forall g, p | g in final && p in g.uses ensures p in after {
      FinalGroup(groups, references, lib, g);
      if m :| m in references && g == AnchorGroup(m, lib) { assert ClonedFrom(before, after, groups, m, lib); }
    }
    forall p | p in after ensures after[p].payload.Some? && after[p].payload.value != [] {
      if p !in before {
        var m :| m in references && RuntimeProviderName(m, lib) == p;
        assert ClonedFrom(before, after, groups, m, lib);
      }
    }
  }

  lemma HardenedResolved(groups: seq<Group>, final: seq<Group>, references: seq<string>, lib: Library)
    requires UniqueNames(groups) && Resolved(groups) && Find(groups, TARGET).Some? && references == Find(groups, TARGET).value.proxies
    requires final == Replace(AnchorsReplaced(groups, references, lib), HardenedTarget(references))
    requires forall m :: m in references ==> ANCHOR_PREFIX <= m
    ensures UniqueNames(final) && Resolved(final)
  {
    FinalLookup(groups, references, lib, TARGET);
    forall g, m | g in final && m in g.proxies ensures Defined(final, m) {
      FinalGroup(groups, references, lib, g);
      assert Defined(groups, m);
      FinalDefined(groups, references, lib, m);
    }
  }

  lemma HardenedStructured(before: map<string, Provider>, groups: seq<Group>, after: map<string, Provider>, final: seq<Group>,
                           ruleProviders: map<string, RuleProvider>, rules: seq<Rule>, references: seq<string>, lib: Library)
    requires Find(groups, TARGET).Some? && references == Find(groups, TARGET).value.proxies
    requires HardenedFrom(before, groups, after, final, references, lib) && Structured(before, groups, ruleProviders, rules)
    ensures Structured(after, final, ruleProviders, rules)
  {
    HardenedSupplied(before, groups, after, final, references, lib);
    HardenedResolved(groups, final, references, lib);
    forall r | r in rules ensures Defined(final, r.target) { FinalDefined(groups, references, lib, r.target); }
  }

  // ----- hardening keeps a candidate live -----

  lemma FinalNamed(groups: seq<Group>, final: seq<Group>, references: seq<string>, lib: Library, n: string)
    requires final == Replace(AnchorsReplaced(groups, references, lib), HardenedTarget(references)) && Find(final, n).Some?
    ensures Find(groups, n).Some?
  {
    var i := FindIndex(final, n);
    assert groups[i].name == n && groups[i] in groups;
  }

  /** Nobody refers to a group it did not refer to. */
  lemma HardenedAcyclic(groups: seq<Group>, final: seq<Group>, references: seq<string>, lib: Library)
    requires UniqueNames(groups) && Find(groups, TARGET).Some? && references == Find(groups, TARGET).value.proxies
    requires final == Replace(AnchorsReplaced(groups, references, lib), HardenedTarget(references))
    requires (forall m :: m in references ==> ANCHOR_PREFIX <= m) && GroupCycles.Acyclic(GroupGraph(groups))
    ensures GroupCycles.Acyclic(GroupGraph(final))
  {
    forall n, m | n in GroupNames(final) && m in MemberGroups(final, n) ensures n in GroupNames(groups) && m in MemberGroups(groups, n) {
      NamedFound(final, n);
      NamedFound(final, m);
      FinalNamed(groups, final, references, lib, n);
      FinalNamed(groups, final, references, lib, m);
      FinalLookup(groups, references, lib, n);
      NamedFound(groups, n);
      NamedFound(groups, m);
    }
    FewerReferences(groups, final);
  }

  /** A hardened anchor takes every node of its runtime provider. */
  lemma AnchorHasNode(search: Search, before: map<string, Provider>, groups: seq<Group>, after: map<string, Provider>, final: seq<Group>,
                      references: seq<string>, lib: Library, m: string)
    requires UniqueNames(groups) && HardenedFrom(before, groups, after, final, references, lib) && m in references
    ensures HasNode(search, after, final, m)
  {
    assert ClonedFrom(before, after, groups, m, lib);
    PrefixNotTarget(m);
    FinalLookup(groups, references, lib, m);
    FilledNames(after[RuntimeProviderName(m, lib)]);
    assert RuntimeProviderName(m, lib) in AnchorGroup(m, lib).uses;
    UnfilteredOffers(search, after, AnchorGroup(m, lib), RuntimeProviderName(m, lib));
    OfferIsNode(search, after, final, AnchorGroup(m, lib));
  }

  lemma TargetHasNode(search: Search, before: map<string, Provider>, groups: seq<Group>, after: map<string, Provider>, final: seq<Group>,
                      references: seq<string>, lib: Library)
    requires UniqueNames(groups) && HardenedFrom(before, groups, after, final, references, lib) && Find(groups, TARGET).Some?
    ensures HasNode(search, after, final, TARGET)
  {
    assert references[0] in references;
    assert ClonedFrom(before, after, groups, references[0], lib);
    FinalLookup(groups, references, lib, TARGET);
    AnchorHasNode(search, before, groups, after, final, references, lib, references[0]);
    TargetNotBuiltin();
    MemberIsNode(search, after, final, HardenedTarget(references), references[0]);
  }

  lemma TargetNotBuiltin()
    ensures TARGET !in BUILTINS
  {
    assert TARGET[0] == '_';
    assert forall b :: b in BUILTINS ==> b[0] != '_';
  }

  lemma HardenedWay(search: Search, before: map<string, Provider>, groups: seq<Group>, after: map<string, Provider>, final: seq<Group>,
                    references: seq<string>, lib: Library, x: string)
    requires UniqueNames(groups) && HardenedFrom(before, groups, after, final, references, lib) && Find(groups, TARGET).Some?
    requires x in GroupNames(groups) && IsGroup(groups, x)
    ensures WayKept(search, before, groups, after, final, GroupNames(groups), x)
  {
    if x == TARGET {
      TargetHasNode(search, before, groups, after, final, references, lib);
    } else if x in references {
      AnchorHasNode(search, before, groups, after, final, references, lib, x);
    } else {
      assert forall m :: m in references ==> ClonedFrom(before, after, groups, m, lib);
      FinalLookup(groups, references, lib, x);
      OffersKept(search, before, after, Find(groups, x).value);
      forall m | m in Find(groups, x).value.proxies && HasNode(search, before, groups, m) ensures m in GroupNames(groups) {
        NodeIsGroup(search, before, groups, m);
      }
      SameWay(search, before, groups, after, final, GroupNames(groups), x);
    }
  }

  lemma HardenedPopulated(search: Search, before: map<string, Provider>, groups: seq<Group>, after: map<string, Provider>, final: seq<Group>,
                          references: seq<string>, lib: Library)
    requires UniqueNames(groups) && HardenedFrom(before, groups, after, final, references, lib) && Find(groups, TARGET).Some?
    requires Populated(search, before, groups)
    ensures Populated(search, after, final)
  {
    forall x | x in GroupNames(groups) && IsGroup(groups, x) ensures WayKept(search, before, groups, after, final, GroupNames(groups), x) {
      HardenedWay(search, before, groups, after, final, references, lib, x);
    }
    forall g | g in final && Measured(g) ensures EmptyStable(g) || HasNode(search, after, final, g.name) {
      FinalGroup(groups, references, lib, g);
      if g in groups {
        if HasNode(search, before, groups, g.name) { NodeKept(search, before, groups, after, final, GroupNames(groups), g.name); }
      } else if g == HardenedTarget(references) {
        TargetHasNode(search, before, groups, after, final, references, lib);
      } else {
        AnchorHasNode(search, before, groups, after, final, references, lib, g.name);
      }
    }
  }

  /** Hardening keeps a valid configuration valid. */
  lemma HardenedStaysValid(search: Search, before: map<string, Provider>, groups: seq<Group>, after: map<string, Provider>, final: seq<Group>,
                           ruleProviders: map<string, RuleProvider>, rules: seq<Rule>, references: seq<string>, lib: Library)
    requires Find(groups, TARGET).Some? && references == Find(groups, TARGET).value.proxies
    requires HardenedFrom(before, groups, after, final, references, lib)
    ensures Validated(search, before, groups, ruleProviders, rules) ==> Validated(search, after, final, ruleProviders, rules)
  {
    if Validated(search, before, groups, ruleProviders, rules) {
      HardenedStructured(before, groups, after, final, ruleProviders, rules, references, lib);
      HardenedAcyclic(groups, final, references, lib);
      HardenedPopulated(search, before, groups, after, final, references, lib);
    }
  }
}
