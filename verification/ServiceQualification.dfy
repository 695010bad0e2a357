/** Per-service routing through the nodes that passed each service's probe. */
module ServiceQualification {
  import opened Ordering
  import opened Results
  import opened Routing
  import ExactFilter
  import ServiceRules

  datatype Service = OpenAi | Claude | Gemini

  const SERVICES := [OpenAi, Claude, Gemini]

  function Target(s: Service): string {
    match s
    case OpenAi => ServiceRules.OPENAI_TARGET
    case Claude => ServiceRules.CLAUDE_TARGET
    case Gemini => ServiceRules.GEMINI_TARGET
  }

  function Token(s: Service): string {
    match s
    case OpenAi => "OPENAI"
    case Claude => "CLAUDE"
    case Gemini => "GEMINI"
  }

  /** `digest` stands for the first ten hex digits of the provider name's SHA-256. */
  function CloneName(s: Service, provider: string, digest: string -> string): string {
    "__CR_AI_" + Token(s) + "_" + digest(provider)
  }

  // ----- provider routes -----

  datatype Routed = Routed(provider: string, anchor: string, wrapper: string)

  /** The first hidden group that uses the provider. */
  function AnchorOf(groups: seq<Group>, provider: string): (a: Option<string>)
    ensures a.Some? ==> exists g :: g in groups && g.name == a.value && g.hidden && provider in g.uses
    ensures a.None? ==> forall g :: g in groups && g.hidden ==> provider !in g.uses
  {
    if groups == [] then None
    else
      var n := |groups| - 1;
      assert groups == groups[..n] + [groups[n]];
      var init := AnchorOf(groups[..n], provider);
      if init.Some? then init
      else if groups[n].hidden && provider in groups[n].uses then Some(groups[n].name)
      else None
  }

  /** The first visible group whose only member is the anchor. */
  function WrapperOf(groups: seq<Group>, anchor: string): (w: Option<string>)
    ensures w.Some? ==> exists g :: g in groups && g.name == w.value && !g.hidden && g.proxies == [anchor]
    ensures w.None? ==> forall g :: g in groups && !g.hidden ==> g.proxies != [anchor]
  {
    if groups == [] then None
    else if !groups[0].hidden && groups[0].proxies == [anchor] then Some(groups[0].name)
    else WrapperOf(groups[1..], anchor)
  }

  /** The first hidden group over the provider. */
  ghost predicate IsAnchorAt(groups: seq<Group>, provider: string, i: nat) {
    && i < |groups| && groups[i].hidden && provider in groups[i].uses
    && forall j :: 0 <= j < i ==> !(groups[j].hidden && provider in groups[j].uses)
  }

  /** The first visible group whose one member is the anchor. */
  ghost predicate IsWrapperAt(groups: seq<Group>, anchor: string, i: nat) {
    && i < |groups| && !groups[i].hidden && groups[i].proxies == [anchor]
    && forall j :: 0 <= j < i ==> groups[j].hidden || groups[j].proxies != [anchor]
  }

  lemma {:induction false} AnchorExactly(groups: seq<Group>, provider: string, i: nat)
    requires IsAnchorAt(groups, provider, i)
    ensures AnchorOf(groups, provider) == Some(groups[i].name)
  {
    var n := |groups| - 1;
    if i < n {
      assert IsAnchorAt(groups[..n], provider, i);
      AnchorExactly(groups[..n], provider, i);
    } else {
      assert forall g :: g in groups[..n] && g.hidden ==> provider !in g.uses;
    }
  }

  lemma {:induction false} WrapperExactly(groups: seq<Group>, anchor: string, i: nat)
    requires IsWrapperAt(groups, anchor, i)
    ensures WrapperOf(groups, anchor) == Some(groups[i].name)
  {
    if i > 0 {
      assert IsWrapperAt(groups[1..], anchor, i - 1) by { assert forall j :: 0 <= j < i - 1 ==> groups[1..][j] == groups[j + 1]; }
      WrapperExactly(groups[1..], anchor, i - 1);
    }
  }

  predicate HasRoute(groups: seq<Group>, provider: string) {
    AnchorOf(groups, provider).Some? && WrapperOf(groups, AnchorOf(groups, provider).value).Some?
  }

  predicate IsRoute(groups: seq<Group>, t: Routed) {
    AnchorOf(groups, t.provider) == Some(t.anchor) && WrapperOf(groups, t.anchor) == Some(t.wrapper)
  }

  ghost predicate RoutesOf(routes: seq<Routed>, groups: seq<Group>, providers: set<string>) {
    && (forall t :: t in routes ==> t.provider in providers && IsRoute(groups, t))
    && (forall p :: p in providers ==> exists t :: t in routes && t.provider == p)
    && (forall i, j :: 0 <= i < j < |routes| ==> routes[i].provider != routes[j].provider)
  }

  method ProviderRoutes(groups: seq<Group>, providers: set<string>) returns (r: Result<seq<Routed>>)
    ensures r.Ok? <==> forall p :: p in providers ==> HasRoute(groups, p)
    ensures r.Ok? ==> RoutesOf(r.value, groups, providers)
  {
    var order := AnchoredProviders(groups, providers);
    var routes: seq<Routed> := [];
    for k := 0 to |order|
      invariant forall t :: t in routes ==> t.provider in order[..k] && IsRoute(groups, t)
      invariant forall p :: p in order[..k] && HasRoute(groups, p) ==> exists t :: t in routes && t.provider == p
      invariant forall i, j :: 0 <= i < j < |routes| ==> routes[i].provider != routes[j].provider
    {
      var p := order[k];
      assert p in order && p !in order[..k];
      assert order[..k + 1] == order[..k] + [p];
      var anchor := AnchorOf(groups, p).value;
      var wrapper := WrapperOf(groups, anchor);
      if wrapper.Some? {
        var t := Routed(p, anchor, wrapper.value);
        assert forall u :: u in routes ==> u.provider != p;
        routes := routes + [t];
        assert t in routes && t.provider == p;
      }
    }
    assert order[..|order|] == order;
    if exists p :: p in providers && forall t :: t in routes ==> t.provider != p {
      return Raised("could not resolve every country provider route");
    }
    return Ok(routes);
  }

  /** The providers that have an anchor, in the order the groups mention them. */
  method AnchoredProviders(groups: seq<Group>, providers: set<string>) returns (order: seq<string>)
    ensures forall p :: p in order <==> p in providers && AnchorOf(groups, p).Some?
    ensures NoDuplicates(order)
  {
    order := [];
    for k := 0 to |groups|
      invariant forall p :: p in order <==> p in providers && AnchorOf(groups[..k], p).Some?
      invariant NoDuplicates(order)
    {
      ghost var before := order;
      assert groups[..k + 1][..k] == groups[..k];
      if groups[k].hidden {
        var uses := groups[k].uses;
        for j := 0 to |uses|
          invariant forall p :: p in order <==> p in before || (p in providers && p in uses[..j])
          invariant NoDuplicates(order)
        {
          if uses[j] in providers && uses[j] !in order { order := order + [uses[j]]; }
          assert uses[..j + 1] == uses[..j] + [uses[j]];
        }
        assert uses[..|uses|] == uses;
      }
    }
    assert groups[..|groups|] == groups;
  }

  // ----- country order -----

  const REGIONS: map<string, string> := map[
    "US" := "AI · 美国", "SG" := "AI · 新加坡", "JP" := "AI · 日本",
    "TW" := "AI · 台湾", "KR" := "AI · 韩国", "OTHER" := "AI · 其他地区"
  ]
  const LEGACY := [REGIONS["SG"], REGIONS["JP"], REGIONS["US"], REGIONS["TW"], REGIONS["KR"], REGIONS["OTHER"]]

  /** Appends the available names not listed yet. */
  function AppendNew(ordered: seq<string>, names: seq<string>, available: set<string>): (r: seq<string>)
    requires forall x :: x in ordered ==> x in available
    ensures forall x :: x in r ==> x in available
    ensures NoDuplicates(ordered) ==> NoDuplicates(r)
    decreases |names|
  {
    if names == [] then ordered
    else if names[0] in available && names[0] !in ordered then AppendNew(ordered + [names[0]], names[1..], available)
    else AppendNew(ordered, names[1..], available)
  }

  function OnlyAvailable(names: seq<string>, available: set<string>): (r: seq<string>)
    ensures forall x :: x in r ==> x in available
  {
    if names == [] then []
    else (if names[0] in available then [names[0]] else []) + OnlyAvailable(names[1..], available)
  }

  function WithRest(ordered: seq<string>, available: set<string>): (r: seq<string>)
    requires forall x :: x in ordered ==> x in available
    ensures forall x :: x in r <==> x in available
    ensures NoDuplicates(ordered) ==> NoDuplicates(r)
  {
    var rest := Sorted(available - set x | x in ordered);
    assert forall x :: x in rest ==> x !in ordered;
    assert forall i :: 0 <= i < |rest| ==> rest[i] in rest;
    ordered + rest
  }

  /** Every available country, declared preferences first. */
  function OrderedCountryNames(available: set<string>, preferred: Option<seq<string>>, members: seq<string>): (r: Result<seq<string>>)
    ensures r.Raised? <==> preferred.Some? && exists x :: x in preferred.value && x !in REGIONS
    ensures r.Ok? ==> forall x :: x in r.value <==> x in available
    ensures r.Ok? && preferred.Some? ==> NoDuplicates(r.value)
  {
    if preferred.Some? then
      if exists x :: x in preferred.value && x !in REGIONS then Raised("unknown preferred region")
      else
        var names := seq(|preferred.value|, i requires 0 <= i < |preferred.value| => REGIONS[preferred.value[i]]);
        Ok(WithRest(AppendNew(AppendNew([], names, available), LEGACY, available), available))
    else
      var listed := OnlyAvailable(members, available);
      if listed != [] then Ok(WithRest(listed, available))
      else Ok(WithRest(OnlyAvailable(LEGACY, available), available))
  }

  /** Public country group to provider, for the providers that are left. */
  function ByPublic(routes: seq<Routed>, retained: set<string>): (m: map<string, string>)
    ensures forall w :: w in m ==> exists t :: t in routes && t.wrapper == w && t.provider == m[w] && t.provider in retained
    ensures forall t :: t in routes && t.provider in retained ==> t.wrapper in m
  {
    if routes == [] then map[]
    else
      var n := |routes| - 1;
      assert routes == routes[..n] + [routes[n]];
      var m := ByPublic(routes[..n], retained);
      if routes[n].provider in retained then m[routes[n].wrapper := routes[n].provider] else m
  }

  // ----- building one service -----

  /** What a service is built from. */
  datatype Plan = Plan(anchors: map<string, string>, names: map<string, set<string>>, digest: string -> string)

  function CloneOf(source: Group, name: string, names: set<string>): Group
    requires names != {}
  {
    source.(name := name, hidden := true, filter := Some(ExactFilter.Text(names).value))
  }

  function CloneStep(groups: seq<Group>, anchor: string, name: string, names: set<string>): Result<seq<Group>>
    requires names != {}
  {
    var source := Find(groups, anchor);
    if source.None? || source.value.kind != "url-test" then Raised("requires a url-test country anchor")
    else if source.value.filter.Some? && source.value.filter.value != "" then Raised("cannot compose an existing country filter")
    else Ok(groups + [CloneOf(source.value, name, names)])
  }

  /** The providers of the ordered countries that have a qualified node, in order. */
  function Served(order: seq<string>, byPublic: map<string, string>, names: map<string, set<string>>): (r: seq<string>)
    ensures forall p :: p in r ==> p in names && names[p] != {}
  {
    if order == [] then []
    else
      var n := |order| - 1;
      var w := order[n];
      Served(order[..n], byPublic, names)
      + if w in byPublic && byPublic[w] in names && names[byPublic[w]] != {} then [byPublic[w]] else []
  }

  lemma {:induction false} ServedMeaning(order: seq<string>, byPublic: map<string, string>, names: map<string, set<string>>, p: string)
    ensures p in Served(order, byPublic, names) <==> exists w :: w in order && w in byPublic && byPublic[w] == p && p in names && names[p] != {}
  {
    if order != [] {
      var n := |order| - 1;
      assert order == order[..n] + [order[n]];
      ServedMeaning(order[..n], byPublic, names, p);
    }
  }

  /** One country of the service loop: nothing qualified there, nothing added. */
  function CountryStep(groups: seq<Group>, s: Service, public: string, byPublic: map<string, string>, plan: Plan): Result<seq<Group>> {
    if public !in byPublic || byPublic[public] !in plan.names || plan.names[byPublic[public]] == {} then Ok(groups)
    else
      var p := byPublic[public];
      if p !in plan.anchors then Raised("no route") else CloneStep(groups, plan.anchors[p], CloneName(s, p, plan.digest), plan.names[p])
  }

  function CloneCountries(groups: seq<Group>, s: Service, order: seq<string>, byPublic: map<string, string>, plan: Plan): Result<seq<Group>> {
    if order == [] then Ok(groups)
    else
      var init := CloneCountries(groups, s, order[..|order| - 1], byPublic, plan);
      if init.Raised? then init else CountryStep(init.value, s, order[|order| - 1], byPublic, plan)
  }

  function Children(s: Service, served: seq<string>, digest: string -> string): seq<string> {
    seq(|served|, i requires 0 <= i < |served| => CloneName(s, served[i], digest))
  }

  const PROBE_KEYS := ["url", "interval", "timeout", "lazy", "expected-status"]

  function TargetGroup(s: Service, children: seq<string>, template: Option<Group>): Result<Group> {
    if children == [] then Ok(Group(Target(s), "select", true, [], ["REJECT"], None, map[]))
    else if |children| == 1 then Ok(Group(Target(s), "select", true, [], children, None, map[]))
    else if template.None? then Raised("requires a country probe template")
    else if exists k :: k in PROBE_KEYS && k !in template.value.test then Raised("fallback template is missing a key")
    else Ok(Group(Target(s), "fallback", true, [], children, None, map k | k in PROBE_KEYS && k in template.value.test :: template.value.test[k]))
  }

  /** The clones of one service followed by its target, whose probe fields come from the first clone. */
  function AddService(groups: seq<Group>, s: Service, order: seq<string>, byPublic: map<string, string>, plan: Plan): Result<seq<Group>> {
    var cloned := CloneCountries(groups, s, order, byPublic, plan);
    if cloned.Raised? then cloned
    else
      var template := if |groups| < |cloned.value| then Some(cloned.value[|groups|]) else None;
      var target := TargetGroup(s, Children(s, Served(order, byPublic, plan.names), plan.digest), template);
      if target.Raised? then Raised(target.reason) else Ok(cloned.value + [target.value])
  }

  /** One step adds a clone exactly for a served provider. */
  lemma CountryAdds(groups: seq<Group>, s: Service, order: seq<string>, k: nat, byPublic: map<string, string>, plan: Plan)
    requires k < |order| && CountryStep(groups, s, order[k], byPublic, plan).Ok?
    ensures var next, now, then_ := CountryStep(groups, s, order[k], byPublic, plan).value,
                Served(order[..k], byPublic, plan.names), Served(order[..k + 1], byPublic, plan.names);
            if |next| > |groups| then
              && next == groups + [next[|groups|]]
              && Children(s, then_, plan.digest) == Children(s, now, plan.digest) + [next[|groups|].name]
            else next == groups && then_ == now
  {
    assert order[..k + 1][..k] == order[..k];
    var now := Served(order[..k], byPublic, plan.names);
    var public := order[k];
    if public in byPublic && byPublic[public] in plan.names && plan.names[byPublic[public]] != {} {
      assert Served(order[..k + 1], byPublic, plan.names) == now + [byPublic[public]];
    }
  }

  method BuildService(config: Config, s: Service, order: seq<string>, byPublic: map<string, string>, plan: Plan) returns (r: Result<bool>)
    modifies config`groups
    ensures var built := AddService(old(config.groups), s, order, byPublic, plan);
            && (r.Ok? <==> built.Ok?)
            && (r.Ok? ==> config.groups == built.value && r.value == (Served(order, byPublic, plan.names) != []))
  {
    ghost var before := config.groups;
    var children: seq<string> := [];
    var template: Option<Group> := None;
    for k := 0 to |order|
      invariant CloneCountries(before, s, order[..k], byPublic, plan) == Ok(config.groups)
      invariant children == Children(s, Served(order[..k], byPublic, plan.names), plan.digest)
      invariant |config.groups| == |before| + |children|
      invariant template == if children == [] then None else Some(config.groups[|before|])
    {
      assert order[..k + 1][..k] == order[..k];
      var step := CountryStep(config.groups, s, order[k], byPublic, plan);
      assert CloneCountries(before, s, order[..k + 1], byPublic, plan) == step;
      if step.Raised? {
        CloneCountriesPrefix(before, s, order, byPublic, plan, k + 1);
        return Raised(step.reason);
      }
      CountryAdds(config.groups, s, order, k, byPublic, plan);
      if |step.value| > |config.groups| {
        var clone := step.value[|config.groups|];
        children := children + [clone.name];
        if template.None? { template := Some(clone); }
      }
      config.groups := step.value;
    }
    assert order[..|order|] == order;
    var target := TargetGroup(s, children, template);
    if target.Raised? { return Raised(target.reason); }
    config.groups := config.groups + [target.value];
    return Ok(children != []);
  }

  /** A country that raises makes the whole service raise. */
  lemma {:induction false} CloneCountriesPrefix(groups: seq<Group>, s: Service, order: seq<string>, byPublic: map<string, string>, plan: Plan, n: nat)
    requires n <= |order| && CloneCountries(groups, s, order[..n], byPublic, plan).Raised?
    ensures CloneCountries(groups, s, order, byPublic, plan).Raised?
  {
    if n < |order| {
      assert order[..|order| - 1][..n] == order[..n];
      CloneCountriesPrefix(groups, s, order[..|order| - 1], byPublic, plan, n);
    } else {
      assert order[..n] == order;
    }
  }
}
