# Verified model of clash-relay

clash-relay compiles and rewrites a routing configuration: providers of proxy nodes, a graph of proxy groups and a
first-match rule list. Before a release it probes the nodes, prunes and rewires the configuration, and audits the
result. This project models those rewrites, the checks on them and the evidence they rest on, and proves what they
are for. `dafny verify dfyconfig.toml` checks everything.

What an operation leaves is stated twice: once as a specification function the operation is proved against, and once,
in the modules named `...Exactly`, `...Outcome`, `CacheMeaning`, `ClientPathClones` and `ProbeCounts`, read off the
result itself without those functions: positions, fields, filters and counts.

Two meanings carry the routing part. `Routing.IsLeaf` says which nodes or builtins a group reaches through members,
providers and filters. `Routing.Decision` says which target a first-match list gives a connection, where a target may
decline UDP and the core then goes on to the next rule; REJECT never declines. Every rewrite is judged by what it does
to these two.

| modules | what they cover |
|---|---|
| `ExactFilter` | node filter texts as regular expressions, parsed and matched |
| `Routing`, `ServiceRules`, `RouteLock` | configuration, leaves, decisions; the service rule rewrite; the OpenAI route lock and its audit |
| `DownloadAudit`, `DownloadExactly`, `DownloadLeak`, `DownloadExact` | the static download audit, what it accepts index by index, its dynamic guarantee, the case it misses, the exact condition |
| `AiPruning`, `ServiceQualification`, `CountryOrder`, `ServiceLeaves`, `ServiceRewrite`, `ServiceApply` | the AI service rewrite, pruning and fail-closed paths |
| `PruningOutcome`, `ServiceOutcome` | what both leave, read off the candidate group by group |
| `ServiceWiring`, `ServiceBlocks`, `RewrittenRules`, `ServiceReady`, `ServiceClosed`, `ServiceLive`, `ServiceExample`, `ServiceHardening`, `ServicePath` | when that rewrite goes through: references, added groups, rules, cycles and nodes on both paths, an example, and what is reached after the hardening |
| `ClientPath`, `ClientPathLeaves`, `ClientPathClones` | hardening of the OpenAI client path and its audit; what is reached, what is cloned |
| `Validator`, `GroupLiveness` | the validator of generated configurations; what keeps cycles out and nodes behind groups |
| `GroupCycles`, `ExternalGroups`, `ReachableProviders`, `GroupSize` | cycle check, emission fixpoint, breadth-first search, path-expanding estimate |
| `QualificationCache`, `CacheMeaning`, `QualificationRuns`, `CacheDocument`, `CacheExactly` | the qualification cache, what an update leaves, whole runs over it, the stored document |
| `QualificationTurns`, `SystemicLeak` | one turn of the service loop with its evidence, and a turn that caches what a systemic verdict found |
| `DnsWire`, `DnsHeader`, `DnsQuery` | DNS messages (RFC 1035 sections 4.1.1 to 4.1.4, carried as RFC 8484 says): parser, header pointers, query builder |
| `ProbeEvidence`, `ProbeCounts`, `ProbeSharding`, `EndpointBlockage`, `BlockageOutcome`, `ProbeMeaning` | evidence counters as numbers of answers, shards and merge order, the systemic verdict and what it says about the answers |
| `BrowsingRegions`, `BrowsingTiers`, `BrowsingRewrite`, `BrowsingSurface`, `BrowsingQualification`, `BrowsingReady`, `BrowsingValid`, `BrowsingLive`, `BrowsingExample`, `BrowsingHistory`, `BrowsingOutcome` | regional browsing: tiers, rewrite, public surface, when the rewrite goes through, an example, history, and what both steps leave |
| `Deduplicate`, `DedupeOutcome`, `FetchDeadline`, `AclList`, `AclExactly` | node deduplication, the fetch watchdog, ACL4SSR fragments |
| `Results`, `Ordering`, `Sifting` | raised errors, Python's string order, sorting and `unique`; what a filter keeps, by position |

## Where the code and its promises differ

The code is followed in each case; the exact condition is proved.

- `docs/runtime-hardening.md:109-111` says a systemic verdict writes nothing to the cache. A post-sweep verdict does:
  `live_names_for_cache` is set before the verdict and stored after it (`src/clash_relay/ai_application.py:544-561`
  and `676-684`). `SystemicVerdictWrites` is an instance with two nodes in two regions, its verdict worked out from the
  answers; `TurnConclusiveExactly` is the condition.
- `docs/security.md:53` says publication aborts when no node qualifies for any AI service. The rewrite itself does not raise:
  it closes every service (`src/clash_relay/ai_service_qualification.py:319-391`, `FailClosedEmptyInventory`), unless an
  automatic group outside the AI countries lives on the AI policy or an AI provider (`ReadyCloses`).
- The download audit guards list rules only where the source row declares the download scenario, and the declarations
  check does not look at it (`src/clash_relay/download_isolation.py:83-89` and `256-266`). `DownloadListLeak` is an
  accepted configuration that sends Download traffic to an AI rule; `IsolatedExactly` says for every rule list whether
  that can happen.
- NSCOUNT and ARCOUNT are unpacked and unused, yet a compression pointer can lead a name into them: NSCOUNT alone
  makes a response malformed that is read through otherwise. `AuthorityCountChangesTheVerdict` is an instance,
  `CountsMatterByName` the condition, and `CountsMatterExactly` a form of it that looks at the response alone.
- The service rewrite can change the decision of a UDP connection the generic AI rule never decided, because the AI
  group declined it. `UdpCaptured` is an instance, `UndecidedByAiUnchanged` the condition.
- Python's `$` also holds before a final newline, so `re.search` with a filter text accepts a name and a newline
  (`PythonSearch`). The core's RE2 and `re.fullmatch` are exact. The code does search with these texts when it expands
  the leaves of url-test and fallback groups (`src/clash_relay/runtime_graph.py:375`) and when it tiers them by endpoint
  (`src/clash_relay/proxy_endpoint_qualification.py:361` and `376`); there they are exact if and only if no payload holds
  another node called like a filter name followed by a newline (`PythonSearchExactly`).

## Model

| member | source | states |
|---|---|---|
| `ExactFilter.SearchExact` | src/clash_relay/ai_service_qualification.py:103-111 | For every nonempty set of names over all characters, the filter text parses as a regular expression and, with RE2 anchors, is found in a text exactly when the text is one of the names. |
| `ExactFilter.FullMatchExact` | src/clash_relay/ai_runtime_reliability.py:103-116 | A full match of the filter text accepts exactly the names, in RE2 and in Python alike. |
| `ExactFilter.PythonSearch` | src/clash_relay/ai_service_qualification.py:108-111 | Python's own `re.search` accepts one thing more: a name followed by a single newline at the end of the text. |
| `ExactFilter.PythonSearchExactly` | src/clash_relay/runtime_graph.py:330-380 | Where the code does use `re.search`, it selects exactly the names from a payload if and only if no other node of the payload is called like one of them followed by a newline. |
| `ExactFilter.TextInjective` | src/clash_relay/ai_service_qualification.py:108-111 | Different sets of names get different filter texts. |
| `ServiceRules.RewriteServiceRules` | src/clash_relay/ai_service_qualification.py:201-252 | Succeeds exactly on a rewritable configuration (both providers present, the Claude and Gemini rules inside the AI list, one rule each, generic AI target without options), leaves the spliced list and both service lists and returns how many classifiers each of the three lists has; on a raise the rules are untouched. |
| `ServiceRules.RewritableExactly` | src/clash_relay/ai_service_qualification.py:201-231 | A configuration is rewritable exactly when both lists are there, every Claude and Gemini classifier is in the AI list, one rule in all reads the OpenAI list and one the AI list, and that one targets the AI group without options. |
| `ServiceRules.RewrittenExactly` | src/clash_relay/ai_service_qualification.py:230-252 | In place: the rules ahead of the generic AI rule and those from it on, each in their order without the rules on the OpenAI list, and between them one rule per service list with its target, OpenAI, Claude, Gemini. |
| `ServiceRules.RewriteMeaning` | src/clash_relay/ai_service_qualification.py:231-252 | For any connection the rewritten list decides as the rules ahead of the generic AI rule do, else offers the service target that carries it, else decides as the rest of the list. |
| `ServiceRules.OriginalMeaning` | src/clash_relay/ai_service_qualification.py:213-231 | The same reading of the list before the rewrite, the partner of `RewriteMeaning`. |
| `ServiceRules.AheadKeepsDecision` | src/clash_relay/ai_service_qualification.py:231-252 | A connection decided ahead of the generic AI rule, the OpenAI rule aside, keeps that decision. |
| `ServiceRules.ServiceTrafficReachesTarget` | src/clash_relay/ai_service_qualification.py:231-252 | OpenAI, Claude and Gemini traffic that nothing ahead decides goes to the service target that carries it. |
| `ServiceRules.UndecidedByAiUnchanged` | src/clash_relay/ai_service_qualification.py:201-252 | Where no rule targets a service yet: outside the OpenAI list, a connection the generic AI rule did not decide is unchanged if and only if it is not the case that nothing ahead takes it, it is UDP, the AI group declines it and a service target carries it. |
| `ServiceRules.TcpUndecidedByAiUnchanged` | src/clash_relay/ai_service_qualification.py:201-252 | For TCP the exception is empty: such connections never change. |
| `ServiceRules.UdpCaptured` | src/clash_relay/ai_service_qualification.py:201-252 | A concrete UDP connection to Claude that used to leave by MATCH and is captured by the Claude target after the rewrite. |
| `RouteLock.ApplyRouteLock` | src/clash_relay/openai_app_contract.py:218-266 | Succeeds exactly when the target exists and the OpenAI and AI rules are single and in order; the result always passes the audit. |
| `RouteLock.AuditPassing` | src/clash_relay/openai_app_contract.py:269-308 | The audit passes exactly when provider semantics, the reviewed payload, the three single rules, the lock rule and their order are right. |
| `RouteLock.LockIdempotent` | src/clash_relay/openai_app_contract.py:246-262 | Locking a locked list changes nothing. |
| `RouteLock.LockedShape` | src/clash_relay/openai_app_contract.py:246-262 | The lock stands alone directly ahead of the OpenAI rule and the order of the other two is kept. |
| `RouteLock.LockedExactly` | src/clash_relay/openai_app_contract.py:246-262 | In place: all rules but those on the lock list, in order, with one lock rule directly ahead of the first rule on the OpenAI list. |
| `RouteLock.LockableAfterServices` | src/clash_relay/ai_service_qualification.py:231-252 | Every list the service rewrite produces can be locked. |
| `RouteLock.AuditedTrafficIsLocked` | src/clash_relay/openai_app_contract.py:294-308 | In an audited list, application traffic the target carries is decided no later than the lock, never by the OpenAI or the generic AI rule. |
| `RouteLock.LockLeavesOthersAlone` | src/clash_relay/openai_app_contract.py:246-262 | Traffic outside the documented surface is decided as before a first lock. |
| `RouteLock.SharedSuffixesExcluded` | src/clash_relay/openai_app_contract.py:234-237 | The reviewed surface takes no shared domain family as a whole. |
| `DownloadAudit.AuditRuleOrder` | src/clash_relay/download_isolation.py:188-290 | On the canonical project it accepts exactly the candidates in rule mode with the declared rows and inbound, the inbound pair first, the process pairs at the even positions, the domain and list rules ahead of the AI rules, the generic rule behind, every guard adjacent and one listener bound to the target; elsewhere it does not apply. |
| `DownloadExactly.AcceptedExactly` | src/clash_relay/download_isolation.py:188-266 | Index by index: the inbound rule stands first, each reviewed process rule once and together at the positions 2, 4 to 18, each domain rule and the Download list rule once and ahead of the first AI rule, the media and general rules once and behind it, and every rule of a download row once with its rejecting copy directly after it and nowhere else. |
| `DownloadAudit.GuardedIsTerminal` | src/clash_relay/download_isolation.py:246-266 | A connection matching a guarded download rule is decided no later than the adjacent REJECT guard, whichever targets decline UDP. |
| `DownloadAudit.ProcessTrafficStaysDownload` | src/clash_relay/download_isolation.py:208-218 | Reviewed process and inbound traffic leaves by the download target or is rejected. |
| `DownloadAudit.ReviewedNeverAi` | src/clash_relay/download_isolation.py:208-266 | Traffic matching a reviewed process, inbound or domain rule is never decided by an AI rule. |
| `DownloadAudit.DownloadListNeverAi` | src/clash_relay/download_isolation.py:220-266 | ACL4SSR Download traffic is never decided by an AI rule when its source row declares the download scenario, or the target carries the connection. |
| `DownloadLeak.DownloadListLeak` | src/clash_relay/download_isolation.py:83-89 | A manifest and list the audit accepts that send a UDP connection on the Download list to the generic AI rule: the declarations check never looks at the row's scenario. |
| `DownloadExact.IsolatedExactly` | src/clash_relay/download_isolation.py:188-266 | For any rule list: no Download traffic is ever decided by an AI rule, for all providers, connections and declining targets, if and only if a scan finds no AI rule open to it. |
| `DownloadExact.DeclaredScenarioIsolates` | src/clash_relay/download_isolation.py:256-266 | Every accepted list whose Download row declares the download scenario is isolated in that sense. |
| `AiPruning.ApplyAiQualification` | src/clash_relay/ai_qualification.py:668-766 | Succeeds exactly when every AI payload is a list, something survives and the AI policy keeps a live member; leaves the pruned providers and groups and reports the totals. |
| `AiPruning.CollectRemoved` | src/clash_relay/ai_qualification.py:726-748 | Collects the groups that go and the public members that go with them. |
| `AiPruning.PrunedPayload` | src/clash_relay/ai_qualification.py:687-707 | A provider survives exactly when it has a node that passed, and then holds exactly those. |
| `AiPruning.PrunedKeeps` | src/clash_relay/ai_qualification.py:709-751 | A group that does not depend on an emptied provider survives the pruning unchanged. |
| `AiPruning.PrunedUnique` | src/clash_relay/ai_qualification.py:749-751 | Pruning keeps group names unique. |
| `PruningOutcome.PrunedExactly` | src/clash_relay/ai_qualification.py:709-751 | Place by place: exactly those groups go that use a lost provider, the members of the policy whose one member goes or only rejects, and those anchors. The others keep their order and every field; the policy loses, in order, the members that go. |
| `PruningOutcome.ProvidersExactly` | src/clash_relay/ai_qualification.py:687-707 | An AI provider is lost exactly when no node of its payload passed; otherwise its payload is, in order, its proxies that passed and nothing else of it changes. Other providers are untouched. |
| `PruningOutcome.PrunableExactly` | src/clash_relay/ai_qualification.py:668-742 | The pruning goes through exactly when every AI payload is a list, some AI provider has a node that passed and the visible AI policy keeps a member other than DIRECT. |
| `PruningOutcome.TotalsExactly` | src/clash_relay/ai_qualification.py:687-707 | The reported totals are the number of proxies in the AI payloads before and after. |
| `ServiceQualification.ProviderRoutes` | src/clash_relay/ai_service_qualification.py:72-100 | Finds one hidden anchor and one public wrapper per AI provider, or raises. |
| `ServiceQualification.AnchorExactly` | src/clash_relay/ai_service_qualification.py:72-86 | The anchor of a provider is the first hidden group that uses it. |
| `ServiceQualification.WrapperExactly` | src/clash_relay/ai_service_qualification.py:87-99 | The wrapper of an anchor is the first visible group whose one member is the anchor. |
| `ServiceQualification.OrderedCountryNames` | src/clash_relay/ai_service_qualification.py:268-300 | Lists exactly the available countries; raises exactly on an unknown preferred region. |
| `CountryOrder.CountriesOrdered` | src/clash_relay/ai_service_qualification.py:268-300 | Every available country once: first those of the declared preferences and the legacy order, or else of the AI policy, or else of the legacy order, as listed there; then the others sorted. Without preferences this takes an AI policy that names no member twice. |
| `ServiceQualification.BuildService` | src/clash_relay/ai_service_qualification.py:503-527 | One service: a clone behind an exact filter for every country with a qualified node, then its target. |
| `ServiceOutcome.ServiceExactly` | src/clash_relay/ai_service_qualification.py:120-187 | Field by field: for each country with a qualified node, in order, a hidden copy of its anchor under the clone name whose filter admits exactly those nodes; then the hidden target, a select over REJECT without a clone, a select over one, a fallback over several with the five probe settings of the first clone. |
| `ServiceOutcome.ServedExactlyIs` | src/clash_relay/ai_service_qualification.py:503-520 | The providers served are those of the listed countries that have a node which passed, in the order of the countries. |
| `ServiceLeaves.CloneLeaves` | src/clash_relay/ai_service_qualification.py:120-144 | A cloned anchor reaches exactly the names in its filter. |
| `ServiceLeaves.TargetLeaves` | src/clash_relay/ai_service_qualification.py:147-187 | A service target over clones reaches exactly the union of their names, or exactly REJECT when there are none. |
| `ServiceRewrite.BuildServices` | src/clash_relay/ai_service_qualification.py:496-529 | The three services in order, reporting the ones left without a country. |
| `ServiceOutcome.StagesExactly` | src/clash_relay/ai_service_qualification.py:482-533 | The pruning path in full: the pruned groups as they are, then the blocks of OpenAI, Claude and Gemini; every group as built but for the flag of the countries of the providers that stay, which is set. |
| `ServiceOutcome.CountriesAreHidden` | src/clash_relay/ai_service_qualification.py:255-264 | Every country group (wrapper of the anchor of an AI provider that is still there) exists afterwards and is hidden. |
| `ServiceOutcome.SurvivorsExactly` | src/clash_relay/ai_service_qualification.py:394-545 | Every old group that does not go is there afterwards with its fields, hidden if and only if it was or if it is a country, and with its members unless it is the AI policy. |
| `ServiceRewrite.FailClosedEmptyInventory` | src/clash_relay/ai_service_qualification.py:319-391 | Succeeds exactly when the AI policy exists, the rules are rewritable and the validator accepts the closed configuration; every service target then reaches exactly REJECT. |
| `ServiceOutcome.ClosedExactly` | src/clash_relay/ai_service_qualification.py:319-373 | Place by place: the groups over AI providers, their anchors, wrappers and countries go, the others stay in order and as they were, the policy rejects, and three rejecting targets stand at the end. |
| `ServiceRewrite.ServedExactly` | src/clash_relay/ai_service_qualification.py:482-512 | Under the generator's shape the providers served to a service are exactly those with a node that passed its probe, and all survive the pruning. |
| `ServiceRewrite.PrunedRewriteLeaves` | src/clash_relay/ai_service_qualification.py:394-545 | On the pruning path each service target reaches exactly the nodes that passed its probe, or exactly REJECT. |
| `ServiceWiring.PrunedResolved` | src/clash_relay/ai_qualification.py:709-751 | Pruning leaves no reference to a removed group: among groups wired as the generator wires them (groups over AI providers, country groups and their anchors listed by their owners only) every listed member is still a builtin or a group that exists. |
| `ServiceBlocks.BlockAdded` | src/clash_relay/ai_service_qualification.py:503-527 | Over anchors that can be cloned a service never raises and appends one clone per served provider, without members and over that provider alone, then its target over them or over REJECT. |
| `ServiceLive.ReadyFinishes` | src/clash_relay/ai_service_qualification.py:496-533 | For every ready candidate with reviewed rules, all that follows the pruning succeeds: the services are built, every country to hide is there, and the validator accepts groups, providers and rules, without a reference cycle and with a node behind every automatic group. |
| `ServiceLive.PrunedLive` | src/clash_relay/ai_qualification.py:709-751 | Pruning a ready candidate to any nonempty set of known nodes leaves no reference cycle and a node behind every url-test and fallback group. |
| `ServiceReady.WrapperStays` | src/clash_relay/ai_qualification.py:726-751 | The public country group of a provider that keeps a node stays, and stays listed by the AI policy. |
| `ServiceLive.ReadyCloses` | src/clash_relay/ai_service_qualification.py:319-373 | For every ready candidate with reviewed rules the validator accepts the fail-closed configuration if and only if the automatic groups that stay still have a node without the AI providers and with an AI policy that rejects; references, targets and providers are in order in any case. |
| `ServiceExample.OneReady` | src/clash_relay/ai_service_qualification.py:394-545 | A candidate with one country, its anchor, a public group that also shows the provider, and the AI policy is ready. |
| `ServicePath.OthersReach` | src/clash_relay/ai_runtime_reliability.py:178-260 | After the rewrite on the pruning path and the hardening, Claude and Gemini still reach exactly their qualified nodes, or exactly REJECT. |
| `ServicePath.OpenAiReaches` | src/clash_relay/ai_runtime_reliability.py:178-260 | And OpenAI reaches exactly its qualified nodes of the AI providers under their runtime names. |
| `ServiceApply.ApplyAiServiceQualification` | src/clash_relay/ai_service_qualification.py:394-545 | From a ready candidate (valid, routed and wired as generated, no rule on a country group, the new names free) it succeeds if and only if every probe reported, the nodes are known, the rules are the reviewed ones and, when some node qualified, the preferred regions are known or, when none did, no automatic group that stays lives on the AI policy or an AI provider. On success the validator accepts, rules and lists are the rewritten ones, every country group left is hidden when something qualified, providers, groups and counts are those of the pruning or of the fail-closed path and, for the shape of the generator, each service target reaches exactly its qualified nodes or exactly REJECT and exactly the services without a node are reported closed. |
| `ServiceApply.NamesCounted` | src/clash_relay/ai_service_qualification.py:327-337 | On the fail-closed path the reported number tested counts each node name once for every AI provider that has it. |
| `ClientPath.RuntimeNameInjective` | src/clash_relay/ai_runtime_reliability.py:59-61 | Runtime names are injective per anchor whatever the hash does. |
| `ClientPath.ApplyClientPathHardening` | src/clash_relay/ai_runtime_reliability.py:178-260 | A hardened candidate is left alone and audited. Any other valid candidate is hardened if and only if it has an OpenAI target with members, each an anchor whose filter selects a node, and their runtime provider names are new; the result is valid, with no cycle and a node behind every automatic group, hardened, and passes the audit with the same counts. |
| `ClientPathClones.ClonesExactly` | src/clash_relay/ai_runtime_reliability.py:122-148 | For every anchor of a hardened candidate the new inline provider holds, in order, one proxy for each proxy of the source that its filter matches, under its runtime name and with the same settings; the health check is the reviewed one and everything else is the source's. All old providers stay as they were and nothing else is added. |
| `ClientPathClones.GroupsExactly` | src/clash_relay/ai_runtime_reliability.py:178-244 | Group by group: an anchor becomes a hidden fallback over its runtime provider alone, without a filter or test of its own; the target a hidden fallback over the same anchors with the six reviewed test fields and no other; all else is unchanged, in place. |
| `ClientPathClones.HardensExactly` | src/clash_relay/ai_runtime_reliability.py:103-148 | The loop over the anchors goes through exactly when each is a hidden group under the OpenAI prefix over one provider, with a filter that compiles and matches a node of it and a runtime provider name that is not taken, and these names differ. |
| `ClientPath.HardenedPasses` | src/clash_relay/ai_runtime_reliability.py:263-343 | What hardening produces passes every check of the audit. |
| `ClientPathClones.AuditExactly` | src/clash_relay/ai_runtime_reliability.py:263-343 | The audit passes exactly when group names are unique and the target is absent, rejects, or is well probed over anchors each of which has an isolated provider; the status says which. |
| `ClientPathClones.CountsExactly` | src/clash_relay/ai_runtime_reliability.py:316-343 | A passed audit counts the anchors, the distinct providers behind them and the proxies in their payloads. |
| `ServiceHardening.RewriteHardens` | src/clash_relay/ai_runtime_reliability.py:178-244 | After the pruning path of the service rewrite with a node qualified for OpenAI, the target and all its anchors meet what the hardening asks for, as long as the runtime provider names are new. |
| `ClientPathLeaves.HardenedLeaves` | src/clash_relay/ai_runtime_reliability.py:122-148 | Afterwards the OpenAI target reaches exactly the renamed nodes its anchors' filters select. |
| `ClientPathLeaves.HardeningRenames` | src/clash_relay/ai_runtime_reliability.py:178-260 | Over exact anchors the leaves before and after are the two images of the same anchor and node pairs. |
| `ClientPathLeaves.ExactSelection` | src/clash_relay/ai_runtime_reliability.py:103-119 | An exact filter selects exactly its names from the payload. |
| `ClientPathLeaves.OthersUntouched` | src/clash_relay/ai_runtime_reliability.py:178-260 | Groups apart from the OpenAI target and its anchors keep their leaves. |
| `GroupCycles.Visitor.Visit` | src/clash_relay/config_loader.py:179-191 | The depth-first visit fails only on a cycle and otherwise extends the finished names by a topological order. |
| `GroupCycles.ValidateGroupCycles` | src/clash_relay/config_loader.py:165-191 | Accepts a group table if and only if its dependency relation has no cycle. |
| `Validator.ValidateGenerated` | src/clash_relay/validator.py:39-340 | Accepts exactly the configurations whose names, references, providers and rules are in order, whose groups refer to each other without a cycle and whose url-test and fallback groups each reach a node or are the explicitly empty Stable tier. |
| `Routing.StructuredDecides` | src/clash_relay/validator.py:39-340 | What such a configuration is for: every connection leaves by a group or builtin it defines, unless it is UDP and the final target declines it. |
| `Validator.ExpandsToNode` | src/clash_relay/runtime_graph.py:327-380 | The depth-first leaf expansion of a group, cycles included, is nonempty exactly when a chain of members leads to a group that takes a node from its own providers. |
| `GroupCycles.CheckCycles` | src/clash_relay/runtime_graph.py:233-264 | The depth-first search over any graph finds a cycle if and only if there is one. |
| `GroupCycles.SinkExists` | src/clash_relay/generator.py:290-321 | Every nonempty set of rows of an acyclic table has one that depends on none of the set. |
| `ExternalGroups.AddExternalGroups` | src/clash_relay/generator.py:276-323 | For every table it terminates; it succeeds if and only if the enabled rows have an order in which each finds what it refers to, and then emits each enabled row once, after all it refers to. The order is that of passes: each takes the pending rows in table order, emits a row exactly when all it refers to is known at its turn, and emits at least one; their number is returned. |
| `ExternalGroups.OrderableExactly` | src/clash_relay/generator.py:276-323 | With distinct names such an order exists if and only if every reference of an enabled row leads somewhere and the rows have no cycle. |
| `ExternalGroups.NeverStuck` | src/clash_relay/generator.py:290-321 | While references are in order and acyclic, some pending row can be emitted: the no-progress error cannot occur. |
| `ExternalGroups.AcceptedIsSolvable` | src/clash_relay/generator.py:276-323 | A table the cycle check accepts, with references in order, always resolves. |
| `ExternalGroups.EmittedRefersBack` | src/clash_relay/generator.py:259-273 | In the emitted list every group refers only to builtins or strictly earlier groups. |
| `ExternalGroups.EmittedExactly` | src/clash_relay/generator.py:305-311 | An emitted group is a visible select under the row's name over what its members refer to, first occurrences in order. |
| `ExternalGroups.EnabledInOrder` | src/clash_relay/generator.py:283-287 | The rows taken are those without a module or with one switched on, in order. |
| `ReachableProviders.FindReachable` | src/clash_relay/acl4ssr_policy.py:24-55 | Terminates on cyclic graphs and returns each known provider reachable through group references once, and nothing else; a provider never comes ahead of one that a group fewer references away offers. |
| `GroupSize.CompleteExactly` | src/clash_relay/health_check_inventory.py:27-48 | The incomplete flag is false if and only if everything reached exists, has list payloads and lies on no cycle, for every document and every set of names already seen. |
| `GroupSize.CountsPaths` | src/clash_relay/health_check_inventory.py:34-48 | For every document the estimate, complete or not, equals the number of ways down to a node that open no group twice, each listed once. |
| `GroupSize.CompleteCountsAll` | src/clash_relay/health_check_inventory.py:34-48 | A complete estimate equals the number of all ways down to a node. |
| `QualificationCache.CachedServiceDecisions` | src/clash_relay/ai_qualification_cache.py:116-153 | A name is a cached pass exactly when its fingerprint has a passing verdict for the service, not from the future and at most the pass time to live old; a cached failure likewise with the failure time to live. The rest is left to probe, and the three are disjoint. |
| `QualificationCache.DecisionExactly` | src/clash_relay/ai_qualification_cache.py:133-153 | The same read off the records of the cache, for passes, failures and the names to probe. |
| `QualificationCache.UpdateCacheService` | src/clash_relay/ai_qualification_cache.py:156-220 | Ages, writes and evicts as specified and never keeps more than 4096 records. |
| `CacheMeaning.UpdateExactly` | src/clash_relay/ai_qualification_cache.py:168-220 | Record by record: what an update leaves is a record whose latest check is at most 604800 seconds old or one a checked name writes, each with its old verdicts and the new one of the service; all of them when there are at most 4096, else 4096, listed in name order. |
| `CacheMeaning.DroppedIsOlder` | src/clash_relay/ai_qualification_cache.py:206-220 | No dropped record has a later check than a kept one. |
| `CacheMeaning.RoutedExactly` | src/clash_relay/ai_application.py:563-600 | A name is routed to when it passes from the cache, or by the sweep and does not fail from the cache; after a systemic verdict when it passes from the cache, or, when no name does, in any case. |
| `CacheMeaning.WritesExactly` | src/clash_relay/ai_application.py:544-561 | A turn writes nothing behind the sentinel gate or with nothing to probe; else exactly the names the cache leaves open. |
| `QualificationCache.EvictsLeastRecent` | src/clash_relay/ai_qualification_cache.py:206-220 | Every kept record outranks every dropped one: checked more recently, or as recently and stored earlier. |
| `QualificationCache.WrittenMeaning` | src/clash_relay/ai_qualification_cache.py:197-204 | The last checked name of a fingerprint decides its verdict; every other service and fingerprint is untouched. |
| `QualificationTurns.Qualification.QualifyService` | src/clash_relay/ai_application.py:458-684 | One turn of the service loop, from the cache decision over the sentinel gate and the live sweep to the post-sweep check: the cache after it and the names routed to are those of the step the evidence makes. |
| `QualificationTurns.RunSentinelGate` | src/clash_relay/ai_application.py:214-310 | One node of every region is probed at the critical endpoints and at the control; the verdict and the control evidence are those of the evidence model. A single region or no control probe gives neither. |
| `ProbeMeaning.TotalMeaning` | src/clash_relay/ai_qualification.py:408-511 | For any entries and answers: a region counts an endpoint as probed, reached or passed exactly when some node of that region was probed at it, got an HTTP status or passed. |
| `ProbeMeaning.FlaggedExactly` | src/clash_relay/ai_probe_environment.py:82-104 | Run over the counters of a sweep, the five guards flag an endpoint if and only if no node got an HTTP answer from it, nodes of at least two regions were probed at it and the control worked in each of those regions. |
| `QualificationTurns.ControlExactly` | src/clash_relay/ai_application.py:214-310 | A region carries control evidence exactly when the gate ran and the control probe passed through its sentinel. |
| `QualificationTurns.OutcomeExactly` | src/clash_relay/ai_application.py:483-561 | An endpoint is blacked out when it answers no node, over at least two regions in each of which the control works. A turn is closed by the gate exactly when the gate ran and a critical endpoint was blacked out for the sentinels; it is judged systemic after its sweep exactly when the gate ran and was open and one was blacked out in the sweep. |
| `QualificationTurns.OneRegionIsClear` | src/clash_relay/ai_application.py:214-310 | A candidate of a single region is never judged systemic. |
| `QualificationTurns.BlockedSweepPassesNobody` | src/clash_relay/ai_application.py:509-561 | No node passes a sweep that is judged systemic, and some node was probed. |
| `QualificationTurns.BlockedTurnWritesFailures` | src/clash_relay/ai_application.py:544-561 | Such a turn does write to the cache, and only failures. |
| `QualificationTurns.TurnConclusiveExactly` | src/clash_relay/ai_application.py:544-561 | With a clock past all earlier checks, a turn keeps the cache conclusive if and only if it is not the case that its gate ran and was open and a critical endpoint was blacked out in its sweep. |
| `QualificationTurns.TurnsConclusive` | src/clash_relay/ai_application.py:458-684 | A run of turns without such a sweep behind an open gate holds only verdicts of conclusive checks. |
| `QualificationRuns.VerdictsAreChecked` | src/clash_relay/ai_qualification_cache.py:156-220 | Over any run from the empty cache every cached verdict is the result of an earlier live check of that fingerprint for that service. |
| `QualificationRuns.DecisionsAreJustified` | src/clash_relay/ai_application.py:464-475 | Every answer taken from the cache rests on a live check within its time to live. |
| `QualificationRuns.OtherServicesUntouched` | src/clash_relay/ai_qualification_cache.py:156-204 | Updating one service neither creates nor alters a verdict of another. |
| `QualificationRuns.ChecksAreRemembered` | src/clash_relay/ai_qualification_cache.py:197-204 | While there is room every fresh check is answered at once with what it found. |
| `QualificationRuns.RecentVerdictsKept` | src/clash_relay/ai_qualification_cache.py:168-195 | While there is room an update keeps every other verdict of a record checked within seven days. |
| `QualificationRuns.SentinelGateWritesNothing` | src/clash_relay/ai_application.py:504-507 | A sentinel-gate verdict leaves the cache alone. |
| `QualificationRuns.ConclusiveRun` | src/clash_relay/ai_application.py:676-684 | A run no step of which stores a post-sweep systemic sweep holds only verdicts of conclusive checks. |
| `QualificationRuns.ConclusiveExactly` | src/clash_relay/ai_application.py:544-561 | With a clock past all earlier checks, one step keeps the cache conclusive if and only if it is not a post-sweep systemic step with names to store, eviction included. |
| `SystemicLeak.SystemicVerdictWrites` | docs/runtime-hardening.md:109-111 | The documented rule that a systemic verdict writes nothing fails: for any two nodes in two regions whose sentinels are answered and whose sweep then is not, the blockage guards flag the counters of that sweep, the turn is judged systemic after it, and both nodes are cached as failures the next decision trusts. |
| `QualificationRuns.CacheEqualsFullSweep` | src/clash_relay/ai_application.py:563-572 | When probes are stable in time, cached passes plus live passes equal a full live sweep. |
| `CacheDocument.ParseCache` | src/clash_relay/ai_qualification_cache.py:32-65 | Lets in exactly well-typed documents, booleans counting as integers; one bad record empties the cache. |
| `CacheExactly.LoadedExactly` | src/clash_relay/ai_qualification_cache.py:32-65 | A document loads as a cache exactly when it is version one and holds, node by node and in order, its 64-character fingerprints with an object of services, each a boolean and an integer time that is not negative. |
| `CacheExactly.OtherwiseEmpty` | src/clash_relay/ai_qualification_cache.py:32-65 | Anything else gives the empty cache, missing or invalid. |
| `CacheExactly.WrittenExactly` | src/clash_relay/ai_application.py:700-712 | What is stored: version 1 and, in name order, the records with their services, each with the time and the result of its check and nothing else. |
| `CacheDocument.ReadIsStorable` | src/clash_relay/ai_qualification_cache.py:44-65 | Whatever is read has 64-character fingerprints and times that are not negative. |
| `CacheDocument.RunSurvivesStorage` | src/clash_relay/ai_application.py:700-712 | The cache of any run, stored and loaded again, is the same cache. |
| `DnsWire.SkipName` | src/clash_relay/dns_wire.py:77-104 | Terminates on every payload, pointer loops included; agrees with the recursive name decoder; the offset returned is strictly past the start and within the payload. |
| `DnsWire.NameReadableExactly` | src/clash_relay/dns_wire.py:84-104 | A name is readable if and only if the walk from it reaches a zero byte over at most 64 pointers. |
| `DnsWire.ParseResponse` | src/clash_relay/dns_wire.py:107-146 | Reads within bounds only. NXDOMAIN exactly for a reply of at least twelve bytes with response code 3, server failure exactly with another code than 0 and 3, malformed exactly when the header is short or no reply or, under code 0, the questions or a record read before one qualifies do not decode; otherwise answered or not as the record walk finds. |
| `DnsWire.AnsweredExactly` | src/clash_relay/dns_wire.py:124-146 | Answered if and only if the reply is clean, the questions decode and some record among the first ANCOUNT has the type and a public address with everything before it decoding. |
| `DnsWire.NoAnswerExactly` | src/clash_relay/dns_wire.py:124-146 | No answer if and only if everything read decodes and no record qualifies. |
| `DnsHeader.CountsDoNotMatter` | src/clash_relay/dns_wire.py:118-146 | NSCOUNT and ARCOUNT do not matter as long as no name of the response leads into header bytes 8 to 11. |
| `DnsHeader.VerdictByNames` | src/clash_relay/dns_wire.py:118-146 | Other counts leave the verdict of any response that is read through as it was while every name it reads stays readable, and make it malformed as soon as one does not. |
| `DnsHeader.CountsMatterByName` | src/clash_relay/dns_wire.py:92-101 | So for a response of any length that is read through the counts matter if and only if some counts make one of its names unreadable. |
| `DnsHeader.CountsMatterExactly` | src/clash_relay/dns_wire.py:92-101 | Unless a name enters them at byte 7 or 11 and no pointer from there can reach itself or the end of the payload, this is so if and only if some name leads into the counts at all. |
| `DnsHeader.AuthorityCountChangesTheVerdict` | src/clash_relay/dns_wire.py:92-101 | Two responses that differ in NSCOUNT alone, one with a public address and read through, the other malformed, for every record type and address policy. |
| `DnsQuery.BuildQuery` | src/clash_relay/dns_wire.py:56-70 | Builds the query exactly for host names of nonempty labels of 1 to 63 bytes and types of 16 bits, and raises otherwise. |
| `DnsQuery.HostExactly` | src/clash_relay/dns_wire.py:59-64 | A host name yields these labels exactly when it is the nonempty, dot-free parts whose wire forms they are, joined by dots, with any dots at the end; ASCII parts are their own bytes, others what IDNA says. |
| `DnsQuery.QueryReadsBack` | src/clash_relay/dns_wire.py:56-104 | The header of a built query asks for recursion and one question and is zero elsewhere; the name starts at 12, ends four bytes before the query does and decodes to the labels; type and class IN follow. |
| `DnsQuery.QueryInjective` | src/clash_relay/dns_wire.py:56-70 | Distinct label lists or types give distinct queries. |
| `DnsQuery.HostNameInjective` | src/clash_relay/dns_wire.py:59-64 | Two ASCII host names with one query are equal up to trailing dots. |
| `DnsQuery.ReplyAnsweredExactly` | src/clash_relay/dns_wire.py:107-146 | A clean reply to a built query whose answers point at offset 12 is answered if and only if one answer qualifies, whatever the other header fields. |
| `ProbeEvidence.Diagnostics.RecordRegionResults` | src/clash_relay/ai_qualification.py:408-457 | Recording a payload in place adds exactly the evidence of its nodes to the region table. |
| `ProbeEvidence.Diagnostics.RecordProbeResults` | src/clash_relay/ai_qualification.py:460-467 | Recording results in place adds exactly their tallies. |
| `ProbeEvidence.Diagnostics.Merge` | src/clash_relay/ai_qualification.py:470-511 | Merging in place adds the source to the target, region by region, endpoint by endpoint, outcome by outcome. |
| `ProbeEvidence.MergeCommutes` | src/clash_relay/ai_qualification.py:470-511 | Merging is commutative. |
| `ProbeEvidence.MergeAssociates` | src/clash_relay/ai_qualification.py:470-511 | Merging is associative. |
| `ProbeSharding.BuildShards` | src/clash_relay/ai_qualification.py:610-614 | Slices of at most twenty nodes, full but for the last of each payload, cover every payload exactly, in order. |
| `ProbeSharding.QualifyShard` | src/clash_relay/ai_qualification.py:514-582 | A shard reports exactly the evidence of its entries and the names that passed. |
| `ProbeSharding.ProbeAll` | src/clash_relay/ai_qualification.py:616-641 | Merging shards as they complete gives the sum over all entries and the qualified names counted once. |
| `ProbeCounts.CountersExactly` | src/clash_relay/ai_qualification.py:421-457 | Per region and endpoint the five counters are the numbers of results of its nodes at it, of those that passed, failed, had an HTTP status and had none. |
| `ProbeCounts.OutcomesExactly` | src/clash_relay/ai_qualification.py:436-457 | And each outcome is counted as often as it occurs among them. |
| `ProbeCounts.RowsExactly` | src/clash_relay/ai_qualification.py:421-435 | Tested, qualified and failed selections are counted per entry, and per region. |
| `ProbeCounts.TalliesExactly` | src/clash_relay/ai_qualification.py:460-467 | Per probe the tallies count passes, failures and outcomes over all entries. |
| `ProbeSharding.AggregateOrderFree` | src/clash_relay/ai_qualification.py:616-641 | Any two shardings of the same entries, completed in any two orders, give the same diagnostics and qualified names. |
| `ProbeSharding.CompletionOrder` | src/clash_relay/ai_qualification.py:632-635 | A different completion order probes the same entries. |
| `EndpointBlockage.AggregateConsistent` | src/clash_relay/ai_qualification.py:436-457 | Whatever is probed in whatever shards: probed = passed + failed = reached + network failures = sum of outcomes, per region and endpoint. |
| `EndpointBlockage.VerdictMeaning` | src/clash_relay/ai_probe_environment.py:82-104 | On such counters the five guards say that no probe reached the endpoint, at least two regions probed it and the control worked in all of them; two of the five then follow from the rest. |
| `EndpointBlockage.EvaluateEndpointBlockage` | src/clash_relay/ai_probe_environment.py:59-123 | On any counters: the blocked endpoints are those the five guards pass, in the order given, and the dominant outcome is the most frequent and then the least network outcome counted for them. On counters that agree a systemic verdict always names one. |
| `BlockageOutcome.GuardsExactly` | src/clash_relay/ai_probe_environment.py:82-104 | On any counters the guards say: no probed region reached the endpoint, at least two were probed, at least two had network failures, all of those have the control and at least two regions have it. |
| `BlockageOutcome.FlaggedInOrder` | src/clash_relay/ai_probe_environment.py:82-104 | The blocked endpoints are the critical ones the guards flag, in the order given. |
| `BlockageOutcome.DominantExactly` | src/clash_relay/ai_probe_environment.py:106-123 | The dominant outcome is the network outcome counted most over the blocked endpoints and all regions, the least such on a tie. |
| `EndpointBlockage.SelectSentinels` | src/clash_relay/ai_probe_environment.py:37-52 | One sentinel per region, in region order, each the first name of its region. |
| `BrowsingRegions.DisplayRoundTrip` | src/clash_relay/browsing_regions.py:46-66 | The display name of a region leads back to it. |
| `BrowsingRegions.RegionGroupsApart` | src/clash_relay/browsing_regions.py:46-56 | The group names of two regions never meet, so removing one touches none of another. |
| `BrowsingTiers.RemoveRegionRuntime` | src/clash_relay/browsing_runtime.py:406-438 | Removes the region's groups and every reference to them, and raises exactly when a remaining group still uses its provider. |
| `BrowsingTiers.TiersCover` | src/clash_relay/browsing_runtime.py:523-540 | Stable and Reserve are nonempty and together exactly the region's qualified nodes, before and after the history step. |
| `BrowsingTiers.SetRegionTierFilters` | src/clash_relay/browsing_runtime.py:454-464 | Writes both exact filters, or raises when a tier group is missing. |
| `BrowsingTiers.TieredElsewhere` | src/clash_relay/browsing_runtime.py:454-464 | The filters of one region survive the removal or rewriting of another. |
| `BrowsingRewrite.RewriteRegion` | src/clash_relay/browsing_runtime.py:494-549 | One region: goes through exactly when nothing else uses the provider of a region without a qualified node, or the tier groups of one with are there; leaves it removed without a trace or pruned and tiered. |
| `BrowsingQualification.RewriteQualifiedCandidate` | src/clash_relay/browsing_runtime.py:467-571 | Succeeds exactly when each region goes through, one survives and both checks accept. Then the surviving regions are exactly those with a qualified node and the removed ones the others, in their old order, the automatic group lists exactly the survivors, no group refers to a removed region and every tier filter is in place. |
| `BrowsingOutcome.RewrittenTiers` | src/clash_relay/browsing_runtime.py:523-540 | The Stable filter of a surviving region admits exactly its qualified nodes in the stable set, or all of them when there is none; Reserve admits exactly the other qualified nodes, or all of them when there is no other. |
| `BrowsingOutcome.GroupsExactly` | src/clash_relay/browsing_runtime.py:406-464 | Name by name: a group that stays keeps its fields, its members without those that go in order, and a new filter only in a tier of a surviving region; the automatic and public groups list the survivors in order. |
| `BrowsingOutcome.GoneExactly` | src/clash_relay/browsing_runtime.py:406-438 | The four groups of a region without a qualified node are gone. |
| `BrowsingOutcome.PlacesKept` | src/clash_relay/browsing_runtime.py:406-438 | The groups that stay stand in the order they stood in. |
| `BrowsingOutcome.ProvidersExactly` | src/clash_relay/browsing_runtime.py:494-527 | A region's provider goes without a qualified node and is otherwise cut, in order, to its qualified proxies with nothing else changed; other providers stay. |
| `BrowsingOutcome.CountsExactly` | src/clash_relay/browsing_runtime.py:535-549 | The counts of a surviving region are the sizes of its payload, of its qualified nodes, of the stable and other ones and of the sets its two filters admit. |
| `BrowsingOutcome.RemovedCounts` | src/clash_relay/browsing_runtime.py:502-519 | Exactly the regions with an inventory are reported; those without a qualified node as removed, with nothing but their size. |
| `BrowsingTiers.RemovedExactly` | src/clash_relay/browsing_runtime.py:406-438 | Removal drops the named groups and, in order, the references to them, and nothing else. |
| `BrowsingReady.SurfaceKept` | src/clash_relay/browsing_runtime.py:281-373 | The rewrite keeps the public surface: valid before and with a surviving region, it is valid afterwards, so the later check finds nothing to report. |
| `BrowsingSurface.SurfaceExactly` | src/clash_relay/browsing_runtime.py:281-373 | The surface is valid without a public group; with one exactly when the public names are plain selects, the public group lists the automatic group, the regions and DIRECT, the automatic group is the hidden probed choice over the regions and each region is a hidden fallback over its two tiers, both over the one provider of the region. |
| `BrowsingValid.PassCarries` | src/clash_relay/browsing_runtime.py:406-438 | The pass drops the groups of the regions without a node and every reference to them, adds nothing and leaves every other name in place. |
| `BrowsingLive.FinalLive` | src/clash_relay/browsing_runtime.py:467-555 | As long as a region survives, the rewrite leaves no reference cycle and a node behind every url-test and fallback group. |
| `BrowsingLive.GoesExactly` | src/clash_relay/browsing_runtime.py:467-555 | For a valid candidate with a valid surface, regions that keep to themselves and no rule on a vanishing group, the rewrite succeeds, its closing validation included, if and only if some region keeps a node. |
| `BrowsingExample.OneReady` | src/clash_relay/browsing_runtime.py:281-373 | A candidate with one region, its two tiers over one provider, the automatic and the public group meets these conditions, whatever qualified. |
| `BrowsingQualification.RefreshedRegions` | src/clash_relay/browsing_runtime.py:441-451 | The refreshed automatic group reads back as the surviving regions. |
| `BrowsingQualification.ProviderAfter` | src/clash_relay/browsing_runtime.py:494-527 | A region's provider disappears without a qualified node and otherwise holds exactly the qualified ones. |
| `BrowsingSurface.RegionLeaves` | src/clash_relay/browsing_runtime.py:281-373 | A region of a valid surface whose tiers cover its qualified nodes reaches exactly those. |
| `BrowsingHistory.AutomaticLeaves` | src/clash_relay/browsing_runtime.py:467-571 | After the rewrite the automatic group reaches exactly the qualified nodes of the surviving regions. |
| `BrowsingHistory.ApplyHistoryPreference` | src/clash_relay/browsing_runtime.py:574-623 | Goes through exactly when the regions with at least three preferred stable nodes have both tiers and, if there is one, both checks accept the result; they get the history tiers, two rewrites each, the others keep theirs and no group changes in anything but its filter; nothing rewritten means nothing changed. |
| `BrowsingOutcome.PreferredTiers` | src/clash_relay/browsing_runtime.py:591-618 | After both steps the Stable filter of a survivor with three nodes both stable and preferred admits exactly those and Reserve the other qualified nodes, or all when there is no other; any other survivor keeps its tiers by stability. |
| `BrowsingHistory.HistoryKeepsUnion` | src/clash_relay/browsing_runtime.py:591-618 | After both steps the tiers of a surviving region are the history tiers and still unite to exactly its qualified nodes. |
| `BrowsingHistory.SurvivorLeaves` | src/clash_relay/browsing_runtime.py:591-618 | With any tiers that cover its qualified nodes a surviving region reaches exactly those. |
| `BrowsingHistory.ApplyHistoryCounts` | src/clash_relay/browsing_application.py:127-159 | Updates the counts of every reported region and totals them. |
| `BrowsingHistory.CountsMatchFilters` | src/clash_relay/browsing_application.py:138-159 | The counts reported for a region are the sizes of the sets its filters name. |
| `Deduplicate.DeduplicateNodes` | src/clash_relay/classify.py:121-153 | Kept plus duplicates equal the input; under the error policy it raises exactly on a repeated fingerprint. |
| `DedupeOutcome.RaisesExactly` | src/clash_relay/classify.py:121-153 | Two input nodes share a fingerprint exactly when the error policy raises. |
| `Deduplicate.KeptIsLeast` | src/clash_relay/classify.py:122-130 | The kept node of a fingerprint is an input node apart from its occurrences; it has the least sort key and the occurrence keys of all nodes with it. |
| `DedupeOutcome.KeptIsFirst` | src/clash_relay/classify.py:122-130 | The kept node is, apart from its occurrences, an input node no other of its fingerprint comes ahead of, by order, id, folded name and fingerprint. |
| `DedupeOutcome.KeptInOrder` | src/clash_relay/classify.py:122-153 | The kept nodes stand in that order. |
| `DedupeOutcome.NothingForgotten` | src/clash_relay/classify.py:41-56 | Every occurrence of an input node has one alike, up to case of the name and the display text, in the kept node. |
| `DedupeOutcome.NothingInvented` | src/clash_relay/classify.py:41-56 | Every occurrence of a kept node is one of an input node with its fingerprint. |
| `DedupeOutcome.LastIsKept` | src/clash_relay/classify.py:41-56 | Of occurrences alike the last is kept. |
| `Deduplicate.KeysAreInputs` | src/clash_relay/classify.py:54-56 | No occurrence key is invented. |
| `Deduplicate.FingerprintsKept` | src/clash_relay/classify.py:131-153 | Every fingerprint of the input is kept exactly once. |
| `Deduplicate.DeduplicateTwice` | src/clash_relay/classify.py:121-153 | Deduplicating a result again changes nothing. |
| `Deduplicate.OrderDoesNotMatter` | src/clash_relay/classify.py:121-153 | The same nodes in another order give the same fingerprints in the same order. |
| `Deduplicate.OccurrencesDoNotDependOnOrder` | src/clash_relay/classify.py:54-56 | And each fingerprint the same occurrence keys. |
| `Deduplicate.MergedKeys` | src/clash_relay/classify.py:41-56 | Merging two nodes keeps exactly the occurrence keys of both, in key order. |
| `FetchDeadline.Deadline.Watch` | src/clash_relay/fetch.py:61-69 | The critical section of watching: registers the socket, or hands it back for interruption once closed or expired. |
| `FetchDeadline.Deadline.Expire` | src/clash_relay/fetch.py:78-86 | The critical section of expiry: empties the registry unless already closed. |
| `FetchDeadline.Deadline.Stop` | src/clash_relay/fetch.py:88-97 | The critical section of stopping: closes and empties the registry. |
| `FetchDeadline.RunsAreSound` | src/clash_relay/fetch.py:61-97 | In every interleaving a socket handed in and not replaced is registered, queued for interruption or interrupted; the registry is empty once closed or expired; nothing is interrupted earlier. |
| `FetchDeadline.NoEarlyInterrupt` | src/clash_relay/fetch.py:61-97 | An interruption needs an earlier expiry or stop. |
| `FetchDeadline.OverHasCause` | src/clash_relay/fetch.py:78-97 | Over any interleaving the watchdog is closed exactly when a stop came and marked expired exactly when an expiry came ahead of every stop. |
| `FetchDeadline.AllInterrupted` | src/clash_relay/fetch.py:88-97 | Once it has expired or been stopped and with every operation done, every socket not replaced has been interrupted. |
| `FetchDeadline.CanFinish` | src/clash_relay/fetch.py:84-97 | From every reachable state the operations under way can finish. |
| `AclList.ParseList` | src/clash_relay/acl4ssr.py:53-91 | Parses exactly the texts without a bad line and with at least one rule, in order. |
| `AclExactly.LinesExactly` | src/clash_relay/acl4ssr.py:56-58 | The lines put together with their ends, any of Python's and with CR LF as one, are the text, and no line holds an end. |
| `AclExactly.TrimExactly` | src/clash_relay/acl4ssr.py:57-62 | Stripping leaves the part between blanks that neither starts nor ends with one. |
| `AclExactly.PartsExactly` | src/clash_relay/acl4ssr.py:60-62 | The fields are those that, padded with blanks and joined by commas, give the line. |
| `AclExactly.ClassifyExactly` | src/clash_relay/acl4ssr.py:57-88 | A line is a comment, a legacy line or a rule exactly by its first character, its kind, its value and its options. |
| `AclExactly.RulesExactly` | src/clash_relay/acl4ssr.py:53-91 | The rules parsed are those of the accepted lines, in order. |
| `AclList.LinesAccountedFor` | src/clash_relay/acl4ssr.py:56-88 | Every line of an accepted text is a comment, a legacy rule or a rule, and none is lost. |
| `AclList.RoundTrip` | src/clash_relay/acl4ssr.py:47-91 | Rendering parsed rules and parsing the text again gives the same rules and no legacy lines. |
| `AclList.RenderInjective` | src/clash_relay/acl4ssr.py:47-50 | Two parsed rules with one text are one rule. |
| `AclList.PayloadMatchesAlike` | src/clash_relay/acl4ssr.py:221 | Dropping repeated payload texts does not change which connections match, whatever a rule matches. |

## Left out

- DnsHeader.CountsMatterExactly: says nothing of a name that enters the counts at byte 7 or 11 in a payload longer than every pointer from there can reach; there `CountsMatterByName` is the condition.
- DownloadAudit.AuditRuleOrder: of the declarations it models the rows, their order, the inbound and the mode; not the uses of the subscription, the policy's scenario, and the groups and pools behind selector and web group.
- ServiceApply.ApplyAiServiceQualification: success is relative to the modelled part of the validator (below), and assumes that the truncated digests of two AI provider names differ.
- BrowsingQualification.RewriteQualifiedCandidate: says nothing of the configuration left behind when it raises, which the caller discards.
- ClientPath.ApplyClientPathHardening: whether a filter outside the modelled fragment compiles and what it matches is what the parameter `Library` says.
- CountryOrder.CountriesOrdered: an AI policy that names a member twice lists that country twice when no preferences are declared.
- AclList.RoundTrip: assumes upper-casing leaves the known rule types alone.
- Deduplicate.MergedKeys: tuples of sorted strings are kept as sets, and the order of Python's tuples on occurrence keys is any total order.
- Groups, providers and rules are typed values; Python's checks on dictionary shapes, YAML, comments and atomic file writes are not modelled.
- Filters outside the regular-expression fragment the exact filters use (quantifiers, classes, escapes of other characters) match nothing in `Routing.IsLeaf`; in the validator they match what the parameter `Search` says.
- Validator.ValidateGenerated: models names, references, targets, nonempty inline payloads, known rule providers, duplicate rules, a final MATCH, reference cycles and a node behind each url-test and fallback group; not the rules on public and hidden groups, dialers, health checks, node names shared by providers, listeners and secrets. Exclude filters are ignored, a filter Python cannot compile is taken to match nothing, and a member called like a node is looked up as a group.
- Digests, fingerprints, IDNA, case folding and the address policy are parameters; where names made from digests have to differ this is an assumption of the result.
- A turn of the service loop whose cache is disabled or whose probe run fails; the nodes of a turn are given with one fingerprint each.
- Probes, controllers, processes, clocks and sockets are oracles, parameters or steps; timeouts of the watchdog timer are a step that may happen at any time.
- Floating point totals of the health-check estimate, the generated reports, and the reporting of provenance and tiers.
- The shared web-general surface, transport qualification and history documents that surround the browsing rewrite.
- The release transaction, its journal and retention, and the scripts that audit source text.
- The regional harden step that creates the browsing groups, and the empty-group omission at the end of the ACL4SSR group semantics: neither adds to the properties proved here.
- Legacy ACL4SSR compatibility checks against the commented provider representation.
