/** The entry point of the service rewrite. */
module ServiceApply {
  import opened Ordering
  import opened Results
  import opened Routing
  import opened Validator
  import opened AiPruning
  import opened ServiceQualification
  import opened ServiceLeaves
  import opened ServiceRewrite
  import opened ServiceReady
  import opened ServiceOutcome
  import ServiceRules
  import ServiceWiring
  import ServiceLive
  import CountryOrder

  /** Distinct node names per provider, summed. */
  function NamesTotal(providers: map<string, Provider>, order: seq<string>): nat
    requires forall p :: p in order ==> p in providers
  {
    if order == [] then 0 else |PayloadNames(providers[order[0]])| + NamesTotal(providers, order[1..])
  }

  /** The nodes of the providers, each under its provider. */
  ghost function NodesUnder(providers: map<string, Provider>, order: seq<string>): set<(string, string)> {
    set p, n | p in order && p in providers && n in PayloadNames(providers[p]) :: (p, n)
  }

  /** A name counts once for each provider that has it. */
  lemma {:induction false} NamesCounted(providers: map<string, Provider>, order: seq<string>)
    requires (forall p :: p in order ==> p in providers) && NoDuplicates(order)
    ensures |NodesUnder(providers, order)| == NamesTotal(providers, order)
  {
    if order == [] {
      assert NodesUnder(providers, order) == {};
    } else {
      var p, rest := order[0], order[1..];
      NamesCounted(providers, rest);
      var own := set n | n in PayloadNames(providers[p]) :: (p, n);
      Tagged(p, PayloadNames(providers[p]));
      assert order == [p] + rest && p !in rest;
      assert NodesUnder(providers, order) == own + NodesUnder(providers, rest) && own !! NodesUnder(providers, rest);
    }
  }

  lemma {:induction false} Tagged(p: string, names: set<string>)
    ensures |set n | n in names :: (p, n)| == |names|
  {
    if names != {} {
      var x :| x in names;
      Tagged(p, names - {x});
      assert (set n | n in names :: (p, n)) == (set n | n in names - {x} :: (p, n)) + {(p, x)};
    }
  }

  /** What the rewrite reports. */
  ghost predicate ReportIs(report: Report, providers: map<string, Provider>, qualified: map<Service, set<string>>, ruleProviders: map<string, RuleProvider>)
    requires Probed(qualified)
  {
    && RulesCounted(ruleProviders, report.rules)
    && if Union(qualified) == {} then report.qualified == 0 && report.tested == NamesTotal(providers, Sorted(AiProviders(providers)))
       else PruneReport(report.tested, report.qualified) == Totals(providers, Union(qualified))
  }

  /** How a rewrite went: closed over these routes, or served with this setting. */
  datatype Trace = Closed(routes: seq<Routed>) | Served(st: Setting)

  /** What becomes of providers and groups: with nothing qualified the closed ones, else the rewritten ones. */
  ghost predicate Becomes(trace: Trace, providers: map<string, Provider>, groups: seq<Group>, qualified: map<Service, set<string>>,
                          preferred: Option<seq<string>>, digest: string -> string, after: map<string, Provider>, final: seq<Group>)
    requires Probed(qualified)
  {
    match trace
    case Closed(routes) =>
      && Union(qualified) == {} && RoutesOf(routes, groups, AiProviders(providers)) && PolicyIndex(groups) < |groups|
      && after == providers - AiProviders(providers) && final == ClosedGroups(groups, routes)
    case Served(st) =>
      Union(qualified) != {} && st.qualified == qualified && st.digest == digest && RewrittenBy(st, providers, groups, preferred, after, final)
  }

  lemma BecomesHidden(trace: Trace, providers: map<string, Provider>, groups: seq<Group>, qualified: map<Service, set<string>>,
                      preferred: Option<seq<string>>, digest: string -> string, after: map<string, Provider>, final: seq<Group>)
    requires Probed(qualified) && Becomes(trace, providers, groups, qualified, preferred, digest, after, final)
    ensures Union(qualified) != {} ==> CountriesHidden(groups, after, final)
  {
    if trace.Served? { CountriesAreHidden(trace.st, providers, groups, preferred, after, final); }
  }

  lemma NoProviders(providers: map<string, Provider>, groups: seq<Group>)
    requires AiProviders(providers) == {}
    ensures RoutesOf([], groups, AiProviders(providers)) && NamesTotal(providers, Sorted(AiProviders(providers))) == 0
  {
  }

  method ApplyAiServiceQualification(search: Search, config: Config, qualified: map<Service, set<string>>, preferred: Option<seq<string>>, digest: string -> string)
    returns (r: Result<Report>, ghost trace: Trace)
    modifies config
    ensures r.Ok? ==> Acceptable(search, old(config.providers), old(config.groups), old(config.ruleProviders), old(config.rules), qualified, preferred)
    ensures Ready(search, old(config.providers), old(config.groups), old(config.ruleProviders), old(config.rules), digest) ==>
              (r.Ok? <==> Acceptable(search, old(config.providers), old(config.groups), old(config.ruleProviders), old(config.rules), qualified, preferred))
    ensures r.Ok? ==> Validated(search, config.providers, config.groups, config.ruleProviders, config.rules)
    ensures r.Ok? ==> config.rules == ServiceRules.Rewritten(old(config.rules))
    ensures r.Ok? ==> config.ruleProviders == ServiceRules.WithServiceLists(old(config.ruleProviders))
    ensures r.Ok? && GeneratorShape(old(config.providers), old(config.groups)) ==>
              && LeavesAsQualified(config.providers, config.groups, qualified)
              && FailClosedAsQualified(r.value.failClosed, qualified)
    ensures r.Ok? && Union(qualified) != {} ==> CountriesHidden(old(config.groups), config.providers, config.groups)
    ensures r.Ok? ==> Probed(qualified) && Becomes(trace, old(config.providers), old(config.groups), qualified, preferred, digest, config.providers, config.groups)
    ensures r.Ok? ==> ReportIs(r.value, old(config.providers), qualified, config.ruleProviders)
  {
    if !Probed(qualified) { return Raised("missing required probe results"), Closed([]); }
    var ai := AiProviders(config.providers);
    if ai == {} {
      NoProviders(config.providers, config.groups);
      if Union(qualified) != {} { return Raised("unknown candidate nodes"), Closed([]); }
      r, trace := CloseServices(search, config, [], 0, qualified, preferred, digest);
      return;
    }
    ghost var providers, groups := config.providers, config.groups;
    r, trace := RouteAndServe(search, config, qualified, preferred, digest);
    if r.Ok? { BecomesHidden(trace, providers, groups, qualified, preferred, digest, config.providers, config.groups); }
  }

  /** The validator accepts what is left, with the rewritten rules and lists. */
  ghost predicate Stands(search: Search, after: map<string, Provider>, final: seq<Group>, lists: map<string, RuleProvider>, rules: seq<Rule>,
                         finalLists: map<string, RuleProvider>, finalRules: seq<Rule>) {
    && Validated(search, after, final, finalLists, finalRules)
    && finalRules == ServiceRules.Rewritten(rules) && finalLists == ServiceRules.WithServiceLists(lists)
  }

  /** Groups, leaves and report are what the verdicts make of them. */
  ghost predicate Delivers(trace: Trace, report: Report, providers: map<string, Provider>, groups: seq<Group>, qualified: map<Service, set<string>>,
                           preferred: Option<seq<string>>, digest: string -> string, after: map<string, Provider>, final: seq<Group>,
                           finalLists: map<string, RuleProvider>)
    requires Probed(qualified)
  {
    && (GeneratorShape(providers, groups) ==> LeavesAsQualified(after, final, qualified) && FailClosedAsQualified(report.failClosed, qualified))
    && Becomes(trace, providers, groups, qualified, preferred, digest, after, final) && ReportIs(report, providers, qualified, finalLists)
  }

  /** Every AI provider has a route and a payload. */
  predicate Routable(providers: map<string, Provider>, groups: seq<Group>) {
    forall p :: p in AiProviders(providers) ==> HasRoute(groups, p) && providers[p].payload.Some?
  }

  /** What has to be there before anything is removed. */
  method Route(config: Config, qualified: map<Service, set<string>>) returns (r: Result<seq<Routed>>)
    requires Probed(qualified)
    ensures r.Ok? <==> Routable(config.providers, config.groups) && Union(qualified) <= CandidateNames(config.providers)
    ensures r.Ok? ==> RoutesOf(r.value, config.groups, AiProviders(config.providers))
  {
    var ai := AiProviders(config.providers);
    r := ProviderRoutes(config.groups, ai);
    if r.Raised? { return; }
    if exists p :: p in ai && config.providers[p].payload.None? { return Raised("AI provider payload is invalid"); }
    if !(Union(qualified) <= CandidateNames(config.providers)) { return Raised("unknown candidate nodes"); }
  }

  /** Routes every AI provider and then closes or serves. */
  method RouteAndServe(search: Search, config: Config, qualified: map<Service, set<string>>, preferred: Option<seq<string>>, digest: string -> string)
    returns (r: Result<Report>, ghost trace: Trace)
    requires Probed(qualified)
    modifies config
    ensures r.Ok? ==> Acceptable(search, old(config.providers), old(config.groups), old(config.ruleProviders), old(config.rules), qualified, preferred)
    ensures Ready(search, old(config.providers), old(config.groups), old(config.ruleProviders), old(config.rules), digest) ==>
              (r.Ok? <==> Acceptable(search, old(config.providers), old(config.groups), old(config.ruleProviders), old(config.rules), qualified, preferred))
    ensures r.Ok? ==> Stands(search, config.providers, config.groups, old(config.ruleProviders), old(config.rules), config.ruleProviders, config.rules)
    ensures r.Ok? ==> Delivers(trace, r.value, old(config.providers), old(config.groups), qualified, preferred, digest, config.providers, config.groups, config.ruleProviders)
  {
    var routes := Route(config, qualified);
    if routes.Raised? { return Raised(routes.reason), Closed([]); }
    if Union(qualified) == {} {
      r, trace := CloseServices(search, config, routes.value, NamesTotal(config.providers, Sorted(AiProviders(config.providers))), qualified, preferred, digest);
    } else {
      r, trace := PruneAndServe(search, config, routes.value, qualified, preferred, digest);
    }
  }

  /** Nothing qualified: fail closed. */
  method CloseServices(search: Search, config: Config, routes: seq<Routed>, tested: nat, qualified: map<Service, set<string>>,
                       ghost preferred: Option<seq<string>>, ghost digest: string -> string)
    returns (r: Result<Report>, ghost trace: Trace)
    requires Probed(qualified) && Union(qualified) == {}
    requires RoutesOf(routes, config.groups, AiProviders(config.providers))
    requires tested == NamesTotal(config.providers, Sorted(AiProviders(config.providers)))
    modifies config
    ensures r.Ok? ==> ServiceRules.Rewritable(old(config.ruleProviders), old(config.rules)) && StandsAlone(search, old(config.providers), old(config.groups))
    ensures Ready(search, old(config.providers), old(config.groups), old(config.ruleProviders), old(config.rules), digest) ==>
              (r.Ok? <==> ServiceRules.Rewritable(old(config.ruleProviders), old(config.rules)) && StandsAlone(search, old(config.providers), old(config.groups)))
    ensures r.Ok? ==> Stands(search, config.providers, config.groups, old(config.ruleProviders), old(config.rules), config.ruleProviders, config.rules)
    ensures r.Ok? ==> Delivers(trace, r.value, old(config.providers), old(config.groups), qualified, preferred, digest, config.providers, config.groups, config.ruleProviders)
  {
    ClosesWhenReady(search, config.providers, config.groups, config.ruleProviders, config.rules, routes, digest);
    ClosesAlone(search, config.providers, config.groups, config.ruleProviders, config.rules, routes);
    trace := Closed(routes);
    r := FailClosedEmptyInventory(search, config, routes, tested);
    NothingQualified(qualified);
  }

  lemma ClosesWhenReady(search: Search, providers: map<string, Provider>, groups: seq<Group>, ruleProviders: map<string, RuleProvider>, rules: seq<Rule>,
                        routes: seq<Routed>, digest: string -> string)
    requires RoutesOf(routes, groups, AiProviders(providers))
    ensures Ready(search, providers, groups, ruleProviders, rules, digest) && ServiceRules.Rewritable(ruleProviders, rules) ==>
              && PolicyIndex(groups) < |groups|
              && (Validated(search, providers - AiProviders(providers), ClosedGroups(groups, routes),
                            ServiceRules.WithServiceLists(ruleProviders), ServiceRules.Rewritten(rules))
                  <==> StandsAlone(search, providers, groups))
  {
    if Ready(search, providers, groups, ruleProviders, rules, digest) && ServiceRules.Rewritable(ruleProviders, rules) {
      ServiceLive.ReadyCloses(search, providers, groups, ruleProviders, rules, routes, digest);
    }
  }

  lemma ClosesAlone(search: Search, providers: map<string, Provider>, groups: seq<Group>, ruleProviders: map<string, RuleProvider>, rules: seq<Rule>,
                    routes: seq<Routed>)
    requires RoutesOf(routes, groups, AiProviders(providers))
    ensures PolicyIndex(groups) < |groups|
            && Validated(search, providers - AiProviders(providers), ClosedGroups(groups, routes),
                         ServiceRules.WithServiceLists(ruleProviders), ServiceRules.Rewritten(rules))
            ==> StandsAlone(search, providers, groups)
  {
    if PolicyIndex(groups) < |groups| && Populated(search, providers - AiProviders(providers), ClosedGroups(groups, routes)) {
      ServiceLive.ClosedStandsAlone(search, providers, groups, routes);
    }
  }

  /** Something qualified: prune, then build the services over what is left. */
  method PruneAndServe(search: Search, config: Config, routes: seq<Routed>, qualified: map<Service, set<string>>, preferred: Option<seq<string>>, digest: string -> string)
    returns (r: Result<Report>, ghost trace: Trace)
    requires Probed(qualified) && Union(qualified) != {} && Union(qualified) <= CandidateNames(config.providers)
    requires RoutesOf(routes, config.groups, AiProviders(config.providers))
    modifies config
    ensures r.Ok? ==> PreferencesKnown(preferred) && ServiceRules.Rewritable(old(config.ruleProviders), old(config.rules))
    ensures Ready(search, old(config.providers), old(config.groups), old(config.ruleProviders), old(config.rules), digest) ==>
              (r.Ok? <==> PreferencesKnown(preferred) && ServiceRules.Rewritable(old(config.ruleProviders), old(config.rules)))
    ensures r.Ok? ==> Stands(search, config.providers, config.groups, old(config.ruleProviders), old(config.rules), config.ruleProviders, config.rules)
    ensures r.Ok? ==> Delivers(trace, r.value, old(config.providers), old(config.groups), qualified, preferred, digest, config.providers, config.groups, config.ruleProviders)
  {
    ghost var providers, groups := config.providers, config.groups;
    PreparesWhenReady(search, providers, groups, config.ruleProviders, config.rules, qualified, digest);
    var prepared := PrepareSetting(config, routes, qualified, preferred, digest);
    if prepared.Raised? { return Raised(prepared.reason), Closed([]); }
    var st := prepared.value.0;
    r, trace := ServePrepared(search, config, st, prepared.value.1, providers, groups, preferred);
  }

  /** The setting and the pruned candidate it was prepared for. */
  ghost predicate Prepared(st: Setting, base: PruneReport, providers: map<string, Provider>, groups: seq<Group>, preferred: Option<seq<string>>,
                           after: map<string, Provider>, pruned: seq<Group>) {
    && st.providers == providers && SettingOf(st, groups) && PolicyIndex(groups) < |groups|
    && OrderedCountryNames(st.byPublic.Keys, preferred, ServiceWiring.PolicyMembers(BaseOf(st, groups))) == Ok(st.order)
    && base == Totals(providers, Union(st.qualified)) && after == PrunedProviders(providers, Union(st.qualified)) && pruned == BaseOf(st, groups)
    && (NoDuplicates(ServiceWiring.PolicyMembers(pruned)) ==> NoDuplicates(st.order))
  }

  /** All that follows the pruning. */
  method ServePrepared(search: Search, config: Config, st: Setting, base: PruneReport, ghost providers: map<string, Provider>, ghost groups: seq<Group>,
                       ghost preferred: Option<seq<string>>) returns (r: Result<Report>, ghost trace: Trace)
    requires Prepared(st, base, providers, groups, preferred, config.providers, config.groups) && Union(st.qualified) != {}
    modifies config
    ensures r.Ok? ==> ServiceRules.Rewritable(old(config.ruleProviders), old(config.rules))
    ensures Ready(search, providers, groups, old(config.ruleProviders), old(config.rules), st.digest) ==>
              (r.Ok? <==> ServiceRules.Rewritable(old(config.ruleProviders), old(config.rules)))
    ensures r.Ok? ==> Stands(search, config.providers, config.groups, old(config.ruleProviders), old(config.rules), config.ruleProviders, config.rules)
    ensures r.Ok? ==> Delivers(trace, r.value, providers, groups, st.qualified, preferred, st.digest, config.providers, config.groups, config.ruleProviders)
  {
    PreparesWhenReady(search, providers, groups, config.ruleProviders, config.rules, st.qualified, st.digest);
    FinishesWhenReady(search, st, groups, config.ruleProviders, config.rules);
    trace := Served(st);
    r := FinishServices(search, config, st, base);
    if r.Ok? {
      Finished(st, groups, config.providers, config.groups, r.value.failClosed);
    }
  }

  /** What the pruning step has to pass. */
  predicate Prepares(providers: map<string, Provider>, groups: seq<Group>, names: set<string>) {
    Prunable(providers, groups, names)
    && var after := PrunedGroups(groups, Emptied(providers, names)); PolicyIndex(after) < |after|
  }

  lemma PreparesWhenReady(search: Search, providers: map<string, Provider>, groups: seq<Group>, ruleProviders: map<string, RuleProvider>, rules: seq<Rule>,
                          qualified: map<Service, set<string>>, digest: string -> string)
    requires Probed(qualified) && Union(qualified) != {} && Union(qualified) <= CandidateNames(providers)
    ensures Ready(search, providers, groups, ruleProviders, rules, digest) && ServiceRules.Rewritable(ruleProviders, rules) ==>
              Prepares(providers, groups, Union(qualified))
              && NoDuplicates(ServiceWiring.PolicyMembers(PrunedGroups(groups, Emptied(providers, Union(qualified)))))
  {
    if Ready(search, providers, groups, ruleProviders, rules, digest) && ServiceRules.Rewritable(ruleProviders, rules) {
      var ai, emptied := AiProviders(providers), Emptied(providers, Union(qualified));
      PolicyIsTarget(rules, ruleProviders, Removable(groups, ai));
      GoesThrough(providers, groups, Union(qualified));
      PolicyStays(groups, ai, emptied);
      KeepDistinct(ServiceWiring.PolicyMembers(groups), ServiceWiring.GonePublic(groups, emptied));
    }
  }

  lemma FinishesWhenReady(search: Search, st: Setting, groups: seq<Group>, ruleProviders: map<string, RuleProvider>, rules: seq<Rule>)
    requires SettingOf(st, groups) && Union(st.qualified) != {}
    ensures Ready(search, st.providers, groups, ruleProviders, rules, st.digest) && ServiceRules.Rewritable(ruleProviders, rules) && NoDuplicates(st.order) ==>
              Finishes(search, st, PrunedProviders(st.providers, Union(st.qualified)), BaseOf(st, groups), ruleProviders, rules)
  {
    if Ready(search, st.providers, groups, ruleProviders, rules, st.digest) && ServiceRules.Rewritable(ruleProviders, rules) && NoDuplicates(st.order) {
      PolicyIsTarget(rules, ruleProviders, Removable(groups, AiProviders(st.providers)));
      ServiceLive.ReadyFinishes(search, st, groups, ruleProviders, rules);
    }
  }

  /** The pruning, then the country order over what it left. */
  method PrepareSetting(config: Config, routes: seq<Routed>, qualified: map<Service, set<string>>, preferred: Option<seq<string>>, digest: string -> string)
    returns (r: Result<(Setting, PruneReport)>)
    requires Probed(qualified) && Union(qualified) <= CandidateNames(config.providers)
    requires RoutesOf(routes, config.groups, AiProviders(config.providers))
    modifies config
    ensures config.ruleProviders == old(config.ruleProviders) && config.rules == old(config.rules)
    ensures r.Ok? <==> Prepares(old(config.providers), old(config.groups), Union(qualified)) && PreferencesKnown(preferred)
    ensures r.Ok? ==>
              && r.value.0.providers == old(config.providers) && r.value.0.qualified == qualified && r.value.0.digest == digest
              && Prepared(r.value.0, r.value.1, old(config.providers), old(config.groups), preferred, config.providers, config.groups)
  {
    var providers := config.providers;
    var base := ApplyAiQualification(config, Union(qualified));
    if base.Raised? { return Raised(base.reason); }
    var policy := PolicyIndex(config.groups);
    if policy == |config.groups| { return Raised("AI policy group is missing after qualification"); }
    var byPublic := ByPublic(routes, config.providers.Keys);
    var order := OrderedCountryNames(byPublic.Keys, preferred, config.groups[policy].proxies);
    if order.Raised? { return Raised(order.reason); }
    OrderDistinct(byPublic.Keys, preferred, config.groups[policy].proxies);
    var st := Setting(order.value, byPublic, providers, routes, qualified, digest);
    SettingFits(st, old(config.groups));
    return Ok((st, base.value));
  }

  lemma OrderDistinct(available: set<string>, preferred: Option<seq<string>>, members: seq<string>)
    requires OrderedCountryNames(available, preferred, members).Ok?
    ensures NoDuplicates(members) ==> NoDuplicates(OrderedCountryNames(available, preferred, members).value)
  {
    if NoDuplicates(members) { CountryOrder.CountriesOrdered(available, preferred, members); }
  }

  lemma SettingFits(st: Setting, groups: seq<Group>)
    requires Probed(st.qualified) && RoutesOf(st.routes, groups, AiProviders(st.providers)) && Union(st.qualified) <= CandidateNames(st.providers)
    requires st.byPublic == ByPublic(st.routes, PrunedProviders(st.providers, Union(st.qualified)).Keys)
    requires forall w :: w in st.order <==> w in st.byPublic.Keys
    ensures SettingOf(st, groups)
  {
  }

  /** The groups after the services are built over `groups` and the countries hidden. */
  function ServedGroups(st: Setting, groups: seq<Group>): Result<seq<Group>>
    requires Probed(st.qualified)
  {
    var built := AddServices(groups, SERVICES, st);
    if built.Raised? then built else Ok(Hide(built.value, st.byPublic.Keys))
  }

  /** Builds the services, splices the rules, hides the countries and validates. */
  method FinishServices(search: Search, config: Config, st: Setting, base: PruneReport) returns (r: Result<Report>)
    requires Probed(st.qualified)
    modifies config
    ensures config.providers == old(config.providers)
    ensures r.Ok? <==> Finishes(search, st, old(config.providers), old(config.groups), old(config.ruleProviders), old(config.rules))
    ensures r.Ok? ==> ServedGroups(st, old(config.groups)) == Ok(config.groups)
    ensures r.Ok? ==> Validated(search, config.providers, config.groups, config.ruleProviders, config.rules)
    ensures r.Ok? ==> config.rules == ServiceRules.Rewritten(old(config.rules))
    ensures r.Ok? ==> config.ruleProviders == ServiceRules.WithServiceLists(old(config.ruleProviders))
    ensures r.Ok? ==> r.value == Report(base.tested, base.qualified, Unserved(SERVICES, st), r.value.rules) && RulesCounted(config.ruleProviders, r.value.rules)
  {
    var built := BuildServices(config, st);
    if built.Raised? { return Raised(built.reason); }
    var rewritten := ServiceRules.RewriteServiceRules(config);
    if rewritten.Raised? { return Raised(rewritten.reason); }
    var hidden := HideCountryGroups(search, config, st.byPublic.Keys);
    if hidden.Raised? { return Raised(hidden.reason); }
    return Ok(Report(base.tested, base.qualified, built.value, rewritten.value));
  }

  /** Hides the country groups, then runs the generated-configuration validator. */
  method HideCountryGroups(search: Search, config: Config, countries: set<string>) returns (r: Result<bool>)
    modifies config`groups
    ensures r.Ok? <==> && (forall w :: w in countries ==> Find(old(config.groups), w).Some?)
                       && Validated(search, config.providers, Hide(old(config.groups), countries), config.ruleProviders, config.rules)
    ensures r.Ok? ==> config.groups == Hide(old(config.groups), countries)
  {
    if exists w :: w in countries && Find(config.groups, w).None? { return Raised("references a missing country group"); }
    config.groups := Hide(config.groups, countries);
    var valid := ValidateGenerated(search, config.providers, config.groups, config.ruleProviders, config.rules);
    if !valid { return Raised("generated configuration is invalid"); }
    return Ok(true);
  }

  ghost predicate FailClosedAsQualified(failClosed: seq<Service>, qualified: map<Service, set<string>>) {
    forall s :: s in qualified ==> (s in failClosed <==> qualified[s] == {})
  }

  lemma AllServices()
    ensures forall s: Service :: s in SERVICES
  {
    forall s: Service ensures s in SERVICES {
      match s {
        case OpenAi => assert SERVICES[0] == OpenAi;
        case Claude => assert SERVICES[1] == Claude;
        case Gemini => assert SERVICES[2] == Gemini;
      }
    }
  }

  lemma WithinUnion(qualified: map<Service, set<string>>, s: Service)
    requires Probed(qualified)
    ensures s in qualified && qualified[s] <= Union(qualified)
  {
    match s {
      case OpenAi =>
      case Claude =>
      case Gemini =>
    }
  }

  lemma NothingQualified(qualified: map<Service, set<string>>)
    requires Probed(qualified) && Union(qualified) == {}
    ensures FailClosedAsQualified(SERVICES, qualified)
    ensures forall s, leaf :: s in qualified ==> (leaf in Expected(qualified[s]) <==> leaf == Builtin("REJECT"))
  {
    AllServices();
    forall s | s in qualified ensures qualified[s] == {} { WithinUnion(qualified, s); }
  }

  lemma FinishedLeaves(st: Setting, groups: seq<Group>, providers: map<string, Provider>, final: seq<Group>)
    requires SettingOf(st, groups) && GeneratorShape(st.providers, groups)
    requires providers == PrunedProviders(st.providers, Union(st.qualified))
    requires ServedGroups(st, PrunedGroups(groups, Emptied(st.providers, Union(st.qualified)))) == Ok(final) && UniqueNames(final)
    ensures LeavesAsQualified(providers, final, st.qualified)
  {
    forall s, leaf | s in st.qualified ensures IsLeaf(providers, final, Target(s), leaf) <==> leaf in Expected(st.qualified[s]) {
      PrunedRewriteLeaves(st, groups, st.byPublic.Keys, s, leaf);
    }
  }

  lemma Finished(st: Setting, groups: seq<Group>, providers: map<string, Provider>, final: seq<Group>, failClosed: seq<Service>)
    requires SettingOf(st, groups) && providers == PrunedProviders(st.providers, Union(st.qualified))
    requires ServedGroups(st, PrunedGroups(groups, Emptied(st.providers, Union(st.qualified)))) == Ok(final) && UniqueNames(final)
    requires failClosed == Unserved(SERVICES, st)
    ensures GeneratorShape(st.providers, groups) ==>
              LeavesAsQualified(providers, final, st.qualified) && FailClosedAsQualified(failClosed, st.qualified)
  {
    if GeneratorShape(st.providers, groups) {
      FinishedLeaves(st, groups, providers, final);
      FinishedFailClosed(st, groups, failClosed);
    }
  }

  /** A service fails closed exactly when nothing passed its probe. */
  lemma FinishedFailClosed(st: Setting, groups: seq<Group>, failClosed: seq<Service>)
    requires SettingOf(st, groups) && GeneratorShape(st.providers, groups) && failClosed == Unserved(SERVICES, st)
    ensures FailClosedAsQualified(failClosed, st.qualified)
  {
    AllServices();
    forall s | s in st.qualified ensures s in failClosed <==> st.qualified[s] == {} {
      UnservedMeaning(SERVICES, st, s);
      ServedFacts(st, groups, s);
      ServedNone(ServedIn(st, s), PlanIn(st, s).names, st.qualified[s]);
    }
  }

  lemma ServedNone(served: seq<string>, names: map<string, set<string>>, qualified: set<string>)
    requires forall p :: p in served ==> p in names && names[p] != {}
    requires forall x :: x in qualified <==> exists p :: p in served && p in names && x in names[p]
    ensures served == [] <==> qualified == {}
  {
    if served != [] { SomeQualified(served, names, qualified); }
  }
}
