# ErieCanalNet control plane, modelled in Dafny

ErieCanalNet is a sidecar-less service mesh. Its proxy server compiles the mesh's outbound traffic
policy into a Pipy configuration document (`config.json`). It publishes that document to the Pipy
repository under a content-hash version, the ETag, which is a 64-bit FNV-1 hash of the serialized
document. An eBPF program answers DNS queries for mesh services in the kernel.

This project models the control-plane core of that system and proves properties of the model:

- **`PipyPolicy`** (`pipy_policy.dfy`) models the Pipy document and its builders (`policy.go`):
  - traffic matches keyed by `<port>=<name>`;
  - route rules, deduplicated by structural equality;
  - the terminal `*` method;
  - protocol normalisation and the local DNS proxy setting;
  - weighted zone endpoints keyed by `address:port`;
  - the rebalancing of load-balancer weights;
  - the route and plugin comparators.
- **`PipyUtil`** (`pipy_util.dfy`) models the two compiler passes (`util.go`):
  - pass 1 turns each traffic match into a bucket per port and protocol, with HTTP route rules or TCP rules, and records every depend cluster;
  - pass 2 (balance) resolves each depend cluster to upstream endpoints;
  - the helpers `clusterToMeshSvc`, `arrayEqual`, `matchType` and `getOutboundHTTPRouteConfigs` are modelled as well.
- **`Jobs`** (`jobs.dfy`) models the job that rebuilds and publishes a proxy's document (`jobs.go`): features, plugin, outbound, balance and reorder, then `publishSidecarConf` with its store calls (derive, batch, delete) and its ETag update.
- **`PipyPlugin`** (`plugin.dfy`) models the plugin chains of the document: built from the configurator's chains, sorted by priority and rendered as script URIs.
- **`Broadcast`** (`broadcast.dfy`) models the debounce loop that runs the jobs: update events, retries, a sliding timer and a reconfirmation round. A broadcast also queues a job directly, without the debounce, through the subscription that `informProxy` sets up for a newly registered proxy; that second path is not part of the model.
- **`Registry`** (`registry.dfy`) models the proxy registry, which caches a single proxy.
- **`Catalog`** (`catalog.dfy`) models the mesh catalog, which aggregates services, identities and endpoints over its providers. **`FsmProvider`** (`fsm_client.dfy`) and **`KubeProvider`** (`kube_client.dfy`) model the two service providers. **`K8s`** (`k8s.dfy`) holds the Kubernetes objects the providers read.
- **`Configurator`** (`configurator.dfy`) models the configurator's getters over the cached mesh configuration. This includes the environment-variable overrides and the four global plugin chains.
- **`TrafficPolicy`** (`traffic_policy.dfy`) models the traffic-policy helpers of `pkg/ecnet/trafficpolicy`:
  - route addition with its conflict error;
  - total weights;
  - the union of two hostname lists, sorted, when one is a subset of the other;
  - the plain set union of the principals a merged rule allows;
  - the merging of inbound policies and rules.

  The same `AddRoute`, `TotalClustersWeight` and `NewOutboundTrafficPolicy` are duplicated in `pkg/ecnet/service/policy`. The rows below cite both copies.
- **`Fnv`** (`hash.dfy`) models the 64-bit FNV-1 hash: the reference fold, the streaming state, and its incremental property.
- **`DnsProxy`** (`dnsproxy.dfy`) models the helpers of the XDP DNS proxy:
  - `parse_query`, the question-section parser of RFC 1035 section 4.1.2;
  - the construction of the A-record answer and the response header (RFC 1035 sections 4.1.1 and 4.1.3);
  - the address and port swaps;
  - the bounded packet copy;
  - the UDP checksum, computed as in RFC 768 and RFC 1071 section 4.1.

  The packet is a byte array that these methods change in place.
- **Shared modules:**
  - `Bytes`, `Strings`, `Seqs` and `Sorting` hold byte and integer widths, string helpers, and the insertion sort that Go's `sort.Sort` uses on short slices;
  - `Wrappers` holds `Option` and `Result`.

Objects whose fields the source updates in place are classes:
- the Pipy document;
- the proxy and its registry;
- the broadcast listener;
- the outbound traffic policy of `pkg/ecnet/trafficpolicy`.

The nested compiled structures are values with update functions. Loops in the source are methods with invariants, proved against specification functions. The properties of those functions are proved as lemmas.

Where the code does something other than what one would expect of it, the model follows the code:
- **The ETag can advance without a write.** One might expect the ETag to advance only after a successful store write. In the code, a derive that returns no error but reports failure skips the write and still sets the ETag to the new hash (`Jobs.PublishChanged`). Because the ETag is a hash, it does not increase monotonically either.
- **Route order.** The match-all route is evidently meant to sort last. The route comparator is false whenever the first path is `.*`, so it is not a strict weak order, and the order `sort.Sort` produces depends on the input order (`PipyPolicy.RouteLessIsNotStrictWeakOrder`). The model sorts with this comparator as written.
- **Readiness does not gate publication.** A document whose balance pass is not ready is still published (`Jobs.Run`).
- **Rebalancing and the federated filter.** Rebalancing rewrites the weights of every cluster in the document, not only the depend clusters. If no flomesh provider returns services, the catalog's federated filter leaves the service list empty (`Catalog.ListMeshServices`).
- **Method lists.** A match rule with no methods gets the single method `*`. Adding `*` clears the method list to nil, and every later addition is ignored.

## Model

| member | source | states |
|---|---|---|
| PipyPolicy.NamedPortKeyInjective | pkg/ecnet/proxyserver/server/policy.go:140-145 | the "<port>=<name>" map key determines both the port and the name, so storing a match under the (port, name) pair identifies it exactly as the string key does |
| PipyPolicy.NewTrafficMatch | pkg/ecnet/proxyserver/server/policy.go:140-160 | reports "exists" exactly when the (port, name) key is already stored, and then returns the policy unchanged; otherwise stores a new empty match under the key; every other stored match and the cluster configurations are untouched |
| PipyPolicy.NewTrafficMatchAppendsOnce | pkg/ecnet/proxyserver/server/policy.go:150-159 | a new match's name is appended exactly once to its port's list, no other port's list changes, and the keyed matches and the per-port lists stay consistent (every stored match listed once, every listed name stored) |
| PipyPolicy.SetProtocol | pkg/ecnet/proxyserver/server/policy.go:94-101 | stores the lower-cased protocol, "tcp" in place of "tcp-server-first", and changes no other field |
| PipyPolicy.SetProtocolNormalizes | pkg/ecnet/proxyserver/server/policy.go:94-101 | the stored protocol is already lower case and is never "tcp-server-first" |
| PipyPolicy.NewTCPServiceRouteRules | pkg/ecnet/proxyserver/server/policy.go:103-108 | the TCP route rules are allocated (empty) only when absent; existing rules and all other fields are kept |
| PipyPolicy.NewHTTPServiceRouteRules | pkg/ecnet/proxyserver/server/policy.go:124-138 | a non-empty rule name gets a rule list, created empty only when missing; existing lists are unchanged; an empty name adds nothing |
| PipyPolicy.NewHTTPServiceRouteRule | pkg/ecnet/proxyserver/server/policy.go:162-173 | "duplicate" holds exactly when some rule already has an equal match; then the list is unchanged and the first such rule is returned; otherwise exactly one rule with that match and no clusters is appended |
| PipyPolicy.NewHTTPServiceRouteRuleKeepsUnique | pkg/ecnet/proxyserver/server/policy.go:162-173 | if no two rules of a list have equal matches before the call, the same holds after it |
| PipyPolicy.AddMethodMatch | pkg/ecnet/proxyserver/server/policy.go:182-194 | once any method is allowed nothing changes; "*" allows every method and empties the list; path, type and headers never change |
| PipyPolicy.AddMethodMatchesResult | pkg/ecnet/proxyserver/server/policy.go:182-194 | a run of adds yields the methods appended in call order when "*" is not among them, and an empty list with every method allowed when it is |
| PipyPolicy.AddMethods | pkg/ecnet/proxyserver/server/util.go:69-75 | the loop over a route's methods calls addMethodMatch once per method, in order |
| PipyPolicy.TrailingDigits | pkg/ecnet/proxyserver/server/policy.go:15 | counts the maximal run of decimal digits at the end of the text |
| PipyPolicy.HasPortSuffixIff | pkg/ecnet/proxyserver/server/policy.go:15 | the `:\d+$` test holds exactly when some ':' is followed by one or more digits and nothing else |
| PipyPolicy.EndpointKey | pkg/ecnet/proxyserver/server/policy.go:224-242 | an address that already ends in ":<digits>" is its own key; any key produced ends in ":<digits>" |
| PipyPolicy.EndpointKeyIdempotent | pkg/ecnet/proxyserver/server/policy.go:224-242 | keying an existing key again, with any port, returns it unchanged |
| PipyPolicy.AddWeightedZoneEndpoint | pkg/ecnet/proxyserver/server/policy.go:216-242 | allocates the endpoint map if needed and stores the endpoint under its key, replacing whatever was stored there |
| PipyPolicy.AddWeightedZoneEndpointStores | pkg/ecnet/proxyserver/server/policy.go:216-242 | the new key carries a port, the stored weight is the one given, and every other key keeps its endpoint |
| PipyPolicy.NewClusterConfigs | pkg/ecnet/proxyserver/server/policy.go:203-214 | a missing cluster gets an entry without endpoints; an existing entry and every other part of the policy are unchanged |
| PipyPolicy.Rebalanced | pkg/ecnet/proxyserver/server/policy.go:68-86 | the same endpoints under the same keys, only weights rewritten |
| PipyPolicy.RebalancedWeights | pkg/ecnet/proxyserver/server/policy.go:56-88 | a local endpoint ends with a non-zero weight; a remote fail-over endpoint gets weight 0 exactly when its cluster has a local endpoint; a remote active-active one ends non-zero; any other remote endpoint is unchanged |
| PipyPolicy.RebalancedIdempotent | pkg/ecnet/proxyserver/server/policy.go:56-88 | rebalancing a second time changes nothing |
| PipyPolicy.FindLocalEndpoints | pkg/ecnet/proxyserver/server/policy.go:61-67 | the search loop finds a local endpoint exactly when the cluster has one |
| PipyPolicy.RebalanceEndpoints | pkg/ecnet/proxyserver/server/policy.go:61-86 | the two loops over one cluster's endpoints produce the rebalanced endpoints |
| PipyPolicy.RebalancedClusters | pkg/ecnet/proxyserver/server/policy.go:56-87 | every cluster is kept; those with endpoints are rebalanced, the others are unchanged |
| PipyPolicy.RouteLess | pkg/ecnet/proxyserver/server/policy.go:258-264 | never true when the first path is ".*"; otherwise exactly the byte-wise "a.Path < b.Path" |
| PipyPolicy.RouteLessIsNotStrictWeakOrder | pkg/ecnet/proxyserver/server/policy.go:258-264 | the route comparator is not a strict weak order ("/a" < "/b", yet each is unordered against ".*") |
| PipyPolicy.PluginLessIsStrictWeakOrder | pkg/ecnet/proxyserver/server/policy.go:274-277 | ordering plugins by higher priority first is a strict weak order |
| PipyPolicy.SortRouteRules | pkg/ecnet/proxyserver/server/policy.go:244-248 | the sorted rules are a permutation of the input, in the order the insertion sort with the route comparator leaves them |
| PipyPolicy.PipyConf.constructor | pkg/ecnet/proxyserver/server/jobs.go:44 | a new document has every field zero |
| PipyPolicy.PipyConf.SetSidecarLogLevel | pkg/ecnet/proxyserver/server/policy.go:18-23 | reports an update exactly when the old level differs up to case, stores the level only then, and changes nothing else |
| PipyPolicy.PipyConf.SetLocalDNSProxy | pkg/ecnet/proxyserver/server/policy.go:25-40 | disabled gives no DNS proxy; enabled gives upstream servers exactly when an address is given, each set only when non-empty; nothing else changes |
| PipyPolicy.PipyConf.NewOutboundTrafficPolicy | pkg/ecnet/proxyserver/server/policy.go:42-47 | the outbound policy is allocated only when missing; nothing else changes |
| PipyPolicy.PipyConf.RebalancedOutboundClusters | pkg/ecnet/proxyserver/server/policy.go:49-88 | the outbound policy's clusters are replaced by their rebalanced form and nothing else in the document changes |
| PipyUtil.MatchType | pkg/ecnet/proxyserver/server/util.go:290-299 | exact and prefix path matches keep their kind, and exactly every other kind becomes a regex match |
| PipyUtil.ElementsCard | pkg/ecnet/proxyserver/server/util.go:260 | a list has at least as many positions as distinct clusters, and exactly as many when no cluster repeats |
| PipyUtil.ArrayEqualIsSetEquality | pkg/ecnet/proxyserver/server/util.go:253-288 | the length check and the two inclusion loops hold exactly when the list has no repeated cluster and holds precisely the route's set of clusters |
| PipyUtil.SelectConfigs | pkg/ecnet/proxyserver/server/util.go:166-175 | the kept route configs are a sub-multiset of the list, and a config is kept exactly when it is for the FQDN and one of its routes has exactly the match's clusters |
| PipyUtil.GetOutboundHTTPRouteConfigs | pkg/ecnet/proxyserver/server/util.go:162-178 | nothing for a target port without configs; otherwise exactly the configs on that port for the FQDN with a route equal to the match's clusters, each at most as often as listed |
| PipyUtil.ClusterToMeshSvc | pkg/ecnet/proxyserver/server/util.go:228-251 | succeeds exactly when the name splits on slashes and vertical bars into three non-empty pieces whose last is a 16-bit decimal number, and then gives namespace, name and TargetPort from the pieces, every other field empty |
| PipyUtil.ClusterToMeshSvcRoundTrip | pkg/ecnet/proxyserver/server/util.go:228-251 | a cluster name written as namespace, slash, name, vertical bar, port parses back to that namespace, name and port |
| PipyUtil.ClusterNameFields | pkg/ecnet/proxyserver/server/util.go:229-233 | such a name splits into exactly its three parts |
| PipyUtil.GetMeshClusterConfigs | pkg/ecnet/proxyserver/server/util.go:205-218 | a found configuration is in the list and has the name; none is found exactly when no configuration has the name |
| PipyUtil.GetUpstreamEndpoints | pkg/ecnet/proxyserver/server/util.go:220-225 | no endpoints for a malformed cluster name; otherwise the catalog's upstream endpoints of the service the name denotes |
| PipyUtil.MatchCoveredGrows | pkg/ecnet/proxyserver/server/util.go:82-84 | a match whose targets are all depend clusters stays so while the depend clusters only grow |
| PipyUtil.PolicyCoveredGrows | pkg/ecnet/proxyserver/server/util.go:82-84 | the same for every match of a policy |
| PipyUtil.AddClusters | pkg/ecnet/proxyserver/server/util.go:92-99 | the depend clusters only grow and stay keyed by name, every listed cluster becomes a depend cluster and a target cluster, and no target cluster is dropped |
| PipyUtil.AddClustersFirstWins | pkg/ecnet/proxyserver/server/util.go:95-97 | a name new to the depend clusters is recorded with the first cluster of the list that carries it |
| PipyUtil.AddClustersLastWins | pkg/ecnet/proxyserver/server/util.go:98 | a target cluster carries the 32-bit weight of the last cluster of the list with its name |
| PipyUtil.AddClustersUntouched | pkg/ecnet/proxyserver/server/util.go:92-99 | a target cluster the list does not name is neither added nor changed |
| PipyUtil.CompileMatch | pkg/ecnet/proxyserver/server/util.go:57-75 | the compiled match has the path (the match-all regex when empty), the path kind, the headers, and allows any method exactly when there are no methods or one is "*", in which case it lists none |
| PipyUtil.AddRoute | pkg/ecnet/proxyserver/server/util.go:56-87 | one route adds at most one rule, keeps the existing rules' matches, and keeps rules free of repeated matches. The rule of its compiled match targets every cluster of the route's set, since the set iteration visits each once. The depend clusters only grow |
| PipyUtil.AddRoutes | pkg/ecnet/proxyserver/server/util.go:56-87 | the loop over the routes keeps the coverage of targets by depend clusters and the absence of repeated matches |
| PipyUtil.AddHostnames | pkg/ecnet/proxyserver/server/util.go:52-54 | every hostname maps to the rule name, other hostnames keep their rule, and no other hostname appears |
| PipyUtil.AddRouteConfig | pkg/ecnet/proxyserver/server/util.go:49-87 | one route config maps its hostnames to its name, creates its rule list, keeps coverage and uniqueness, and leaves port, protocol and TCP rules alone |
| PipyUtil.AddRouteConfigs | pkg/ecnet/proxyserver/server/util.go:49-88 | the loop over the selected configs keeps coverage, uniqueness and the match's port, protocol and TCP rules |
| PipyUtil.AddRouteClusters | pkg/ecnet/proxyserver/server/util.go:112-122 | every cluster of every route of a config, each visited once by the set iteration, enters both the depend clusters and the TCP target clusters; earlier entries are kept and the depend clusters only grow, keyed by name |
| PipyUtil.AddConfigClusters | pkg/ecnet/proxyserver/server/util.go:111-123 | every cluster of every route of every selected config enters both the depend clusters and the TCP target clusters; the depend clusters only grow |
| PipyUtil.MatchConfigsNamed | pkg/ecnet/proxyserver/server/util.go:43-44 | the configs selected for a match come from the policy, so they have names when all the policy's configs do |
| PipyUtil.CompileMatchRules | pkg/ecnet/proxyserver/server/util.go:38-124 | the protocol branch keeps coverage, uniqueness, port and protocol. A TCP or server-first match gets a TCP rule list holding each of its clusters, and each is also a depend cluster. An HTTPS match with selected configs gets a TCP rule list holding every cluster of every route of those configs, all of them depend clusters. An HTTP, gRPC or HTTPS match without selected configs leaves the bucket and the depend clusters unchanged |
| PipyUtil.CompileTrafficMatch | pkg/ecnet/proxyserver/server/util.go:26-124 | one traffic match is stored under its (uint16 port, bucket) key, "http" for HTTP and gRPC, the per-port lists change as newTrafficMatch changes them, every other bucket and the cluster configurations are untouched, and the depend clusters only grow |
| PipyUtil.CompileTrafficMatchKeepsBucket | pkg/ecnet/proxyserver/server/util.go:32-36 | an existing bucket keeps its port and protocol; a new one gets the match's port and the normalized protocol |
| PipyUtil.CompileTrafficMatchWellFormed | pkg/ecnet/proxyserver/server/util.go:26-124 | compiling a match keeps the keyed matches and the per-port lists consistent |
| PipyUtil.WellFormedFrame | pkg/ecnet/proxyserver/server/util.go:32 | that consistency depends only on the stored keys and the per-port lists |
| PipyUtil.CompileTrafficMatchCovered | pkg/ecnet/proxyserver/server/util.go:26-124 | compiling a match keeps every targeted cluster a depend cluster and every rule list free of repeated matches |
| PipyUtil.CoveredAfterUpdate | pkg/ecnet/proxyserver/server/util.go:26-124 | replacing or adding one covered bucket while the depend clusters grow keeps every bucket covered |
| PipyUtil.UniqueAfterUpdate | pkg/ecnet/proxyserver/server/util.go:26-124 | replacing or adding one bucket without repeated matches keeps every bucket so |
| PipyUtil.CompileTrafficMatches | pkg/ecnet/proxyserver/server/util.go:26-125 | pass 1 stores a bucket for every traffic match, keeps the cluster configurations and only grows the depend clusters |
| PipyUtil.MatchKeysKept | pkg/ecnet/proxyserver/server/util.go:26-125 | the keys of earlier matches stay stored as later matches are compiled |
| PipyUtil.GrowsTransitive | pkg/ecnet/proxyserver/server/util.go:82-84 | the depend clusters only growing is transitive over steps |
| PipyUtil.CompileTrafficMatchesInvariants | pkg/ecnet/proxyserver/server/util.go:26-125 | pass 1 keeps three invariants: every targeted cluster is a depend cluster, the two views of the matches agree, no rule list repeats a match |
| PipyUtil.CompiledPolicyInvariants | pkg/ecnet/proxyserver/server/util.go:18-128 | from an empty policy, pass 1's result satisfies those invariants and every depend cluster is recorded under its own name |
| PipyUtil.CollectClusters | pkg/ecnet/proxyserver/server/util.go:92-99 | the TCP cluster loop computes the cluster-list step |
| PipyUtil.CompileRoutes | pkg/ecnet/proxyserver/server/util.go:56-87 | the route loop computes the routes step |
| PipyUtil.MapHostnames | pkg/ecnet/proxyserver/server/util.go:52-54 | the hostname loop computes the hostname step |
| PipyUtil.CompileRouteConfigs | pkg/ecnet/proxyserver/server/util.go:49-88 | the config loop computes the configs step |
| PipyUtil.CollectConfigClusters | pkg/ecnet/proxyserver/server/util.go:111-123 | the HTTPS loops compute the config-clusters step |
| PipyUtil.CompileBucket | pkg/ecnet/proxyserver/server/util.go:38-124 | the protocol branches, including the early continue when no config is selected, compute the branch step |
| PipyUtil.CompileOneTrafficMatch | pkg/ecnet/proxyserver/server/util.go:27-124 | the loop body computes one match's step |
| PipyUtil.CompileAllTrafficMatches | pkg/ecnet/proxyserver/server/util.go:26-125 | the traffic-match loop computes pass 1 over every match in order |
| PipyUtil.GeneratePipyOutboundTrafficRoutePolicy | pkg/ecnet/proxyserver/server/util.go:18-128 | no traffic match leaves the document unchanged and returns no depend clusters; otherwise the outbound policy (allocated when absent) becomes pass 1's result and its depend clusters are returned; no other field changes |
| PipyUtil.AddEndpoints | pkg/ecnet/proxyserver/server/util.go:147-157 | no endpoints leave the cluster's entry as it was; any endpoint gives it an endpoint map |
| PipyUtil.AddEndpointsStores | pkg/ecnet/proxyserver/server/util.go:147-157 | every upstream endpoint has an entry under its "address:port" key, the port being the target port for an endpoint with a cluster key when that is set, else the service port |
| PipyUtil.AddEndpointsLastWins | pkg/ecnet/proxyserver/server/util.go:147-157 | the entry under a key is the weight, cluster key, type and path of the last endpoint with that key |
| PipyUtil.ReadyClustersResolved | pkg/ecnet/proxyserver/server/util.go:133-159 | when every balanced cluster is ready, each one has an entry with endpoints |
| PipyUtil.ReadyTargetsResolved | pkg/ecnet/proxyserver/server/util.go:18-159 | when pass 2 reports ready, every cluster an HTTP or TCP rule of pass 1 targets has an entry with endpoints |
| PipyUtil.CoveredHTTPTarget | pkg/ecnet/proxyserver/server/util.go:82-85 | a cluster an HTTP rule of a covered match targets is a depend cluster |
| PipyUtil.StoreEndpoints | pkg/ecnet/proxyserver/server/util.go:147-157 | the endpoint loop computes the endpoint step |
| PipyUtil.BalanceOne | pkg/ecnet/proxyserver/server/util.go:136-157 | one depend cluster is ready exactly when it has a configuration and upstream endpoints; without a configuration nothing is stored; otherwise its entry is created if absent and the endpoints added |
| PipyUtil.OverwriteTwice | pkg/ecnet/proxyserver/server/util.go:141-156 | the entry written before the endpoint loop is replaced by the one after it |
| PipyUtil.BalanceClusterLocal | pkg/ecnet/proxyserver/server/util.go:135-158 | a cluster's balanced entry depends only on its own current entry, so the map order of the loop does not matter |
| PipyUtil.UpdatedFromStep | pkg/ecnet/proxyserver/server/util.go:135-158 | balancing one more cluster extends the balanced part of the map by that cluster |
| PipyUtil.BalanceNext | pkg/ecnet/proxyserver/server/util.go:135-158 | one turn of the loop keeps the readiness flag equal to "all balanced so far are ready" and the map balanced for those |
| PipyUtil.BalanceClusters | pkg/ecnet/proxyserver/server/util.go:133-159 | in any map order, the result is ready exactly when every depend cluster is ready, and every depend cluster with a configuration has its balanced entry, all others as they were |
| PipyUtil.UpdatedFromBalanced | pkg/ecnet/proxyserver/server/util.go:135-158 | the loop's invariant at the end is the balanced map |
| PipyUtil.AllReadyStep | pkg/ecnet/proxyserver/server/util.go:137-146 | every cluster of a set plus one is ready exactly when the set's are and that one is |
| PipyUtil.GeneratePipyOutboundTrafficBalancePolicy | pkg/ecnet/proxyserver/server/util.go:130-160 | the outbound policy is allocated if needed, only its cluster configurations change, each to its balanced entry, the result is ready exactly when every depend cluster has a configuration and upstream endpoints, and no other field changes |
| Jobs.Features | pkg/ecnet/proxyserver/server/jobs.go:97-104 | with a mesh catalog, the document keeps its log level when that equals the configured one up to case and otherwise takes the configured level. Its local DNS proxy is absent when disabled. When enabled, it has upstream servers exactly when a primary or secondary address is configured, each set exactly when configured. With any other catalog the document is unchanged, and only the spec ever changes |
| Jobs.Plugin | pkg/ecnet/proxyserver/server/jobs.go:91-95 | the plugin-set version is always empty and the chains are exactly those built from the configurator; nothing else changes |
| Jobs.Outbound | pkg/ecnet/proxyserver/server/jobs.go:70-89 | the resolvable services become the DNS database only when non-empty; with traffic matches the outbound policy is pass 1's result (clusters aside); the result is ready exactly when there are no depend clusters or all are ready; the retry hook is called exactly when not ready and set; on a new document the two views of the matches agree and, when ready, every targeted cluster has endpoints |
| Jobs.ReorderedMatch | pkg/ecnet/proxyserver/server/jobs.go:62-64 | only the rule lists change, and the rule names stay the same |
| Jobs.Reordered | pkg/ecnet/proxyserver/server/jobs.go:58-68 | only the traffic matches change, and the same keys stay stored |
| Jobs.ReorderedPermutes | pkg/ecnet/proxyserver/server/jobs.go:58-68 | each sorted rule list is a permutation of the original list, and every other part of the match is unchanged |
| Jobs.ReorderedKeepsInvariants | pkg/ecnet/proxyserver/server/jobs.go:58-68 | reordering keeps the two views of the matches consistent and keeps every resolved target cluster resolved |
| Jobs.SortMatchRules | pkg/ecnet/proxyserver/server/jobs.go:62-64 | the loop sorts every rule list of one match |
| Jobs.ReorderPort | pkg/ecnet/proxyserver/server/jobs.go:61-65 | exactly the matches listed under the port are reordered, and every other match is unchanged |
| Jobs.ReorderPorts | pkg/ecnet/proxyserver/server/jobs.go:59-67 | visiting every port's list reorders every stored match |
| Jobs.Reorder | pkg/ecnet/proxyserver/server/jobs.go:58-68 | with an outbound policy, every rule list of every match is sorted; without one nothing changes; no other field changes |
| Jobs.PublishChanged | pkg/ecnet/proxyserver/server/jobs.go:124-155 | on a changed hash h: the first call derives the proxy codebase at h-2; a successful derive is followed by a batch labelled h-1 that writes config.json with the time and version h; an error ends the calls with Delete and keeps the ETag; no error sets the ETag to h, even when nothing was written |
| Jobs.PublishUnchanged | pkg/ecnet/proxyserver/server/jobs.go:116-124 | no store call is made exactly when serialization fails or the hash equals the ETag; the ETag then stays as it was and the document keeps Ts and Version cleared |
| Jobs.PublishSettles | pkg/ecnet/proxyserver/server/jobs.go:116-124 | after a publication that moved the ETag, publishing the same document again makes no call and keeps the ETag |
| Jobs.PublishSidecarConf | pkg/ecnet/proxyserver/server/jobs.go:111-157 | the store calls, the new ETag and the document left behind are those of the publication state machine |
| Jobs.DeriveAndWrite | pkg/ecnet/proxyserver/server/jobs.go:129-154 | the derive, batch and delete calls and the ETag update on a changed hash |
| Jobs.BalanceAndReorder | pkg/ecnet/proxyserver/server/jobs.go:49-50 | the outbound policy's clusters are rebalanced and its rule lists reordered; nothing else changes |
| Jobs.PostProcessedKeeps | pkg/ecnet/proxyserver/server/jobs.go:49-50 | balance and reorder keep the compiled routes (reordered), the per-port lists, the consistency of the two views and every resolved target |
| Jobs.RebalancedKeepsResolved | pkg/ecnet/proxyserver/server/jobs.go:54-56 | rebalancing rewrites weights only, so a cluster with endpoints keeps them |
| Jobs.BuildPipyConf | pkg/ecnet/proxyserver/server/jobs.go:44-50 | a new document gets the configured log level and local DNS proxy, the configured chains, the DNS database, and pass 1's routes reordered. When ready, every targeted cluster gets endpoints. The retry hook is called exactly when the outbound step is not ready |
| Jobs.Run | pkg/ecnet/proxyserver/server/jobs.go:31-52 | a missing proxy gets no call; otherwise the built document is always published, ready or not, with the empty plugin-set version, and the retry hook is called exactly when not ready |
| Catalog.FlattenMembership | pkg/ecnet/catalog/endpoint.go:10-21 | an item is in the concatenated provider results exactly when some provider returned it |
| Catalog.FlattenAppendEmpty | pkg/ecnet/catalog/endpoint.go:14-17 | skipping a provider that returned nothing leaves the collected list as it was |
| Catalog.ListServiceIdentitiesForService | pkg/ecnet/catalog/service.go:10-19 | the identities are every service provider's identities for the service, concatenated in provider order |
| Catalog.SplitProviders | pkg/ecnet/catalog/service.go:27-36 | the multicluster providers' services in provider order, the other providers in order (each at its position in the list), and only multicluster providers are asked for their services |
| Catalog.KeepFederated | pkg/ecnet/catalog/service.go:41-47 | a provider's services are kept in order, each occurrence once, exactly when some multicluster service has the same name and namespace |
| Catalog.AppendFederated | pkg/ecnet/catalog/service.go:39-49 | the kept services of every other provider, in provider order |
| Catalog.ListMeshServices | pkg/ecnet/catalog/service.go:22-53 | the mesh services are the multicluster services followed by the federated services of the other providers; with no multicluster service no other provider is asked |
| Catalog.FlomeshServicesMembership | pkg/ecnet/catalog/service.go:27-32 | a service is a multicluster service exactly when a provider with the multicluster provider's ID lists it |
| Catalog.OtherProvidersMembership | pkg/ecnet/catalog/service.go:32-35 | the set-aside providers are exactly the providers with another ID |
| Catalog.FederatedFilterMembership | pkg/ecnet/catalog/service.go:41-47 | a service is kept exactly when the provider lists it and a multicluster service shares its name and namespace |
| Catalog.FederatedFilterAddsOnce | pkg/ecnet/catalog/service.go:42-46 | thanks to the break, each listed service is added at most as often as it is listed, however many multicluster services match it |
| Catalog.FederatedServicesMembership | pkg/ecnet/catalog/service.go:39-49 | a service is among the federated services exactly when some other provider lists it and it matches a multicluster service |
| Catalog.MeshServicesMembership | pkg/ecnet/catalog/service.go:22-53 | a service is in the mesh exactly when a multicluster provider lists it, or another provider lists it and a multicluster service has its name and namespace |
| Catalog.MulticlusterServicesFirst | pkg/ecnet/catalog/service.go:27-32 | the multicluster services form a prefix of the result, in provider order |
| Catalog.NoMulticlusterServicesGivesNone | pkg/ecnet/catalog/service.go:38-50 | without any multicluster service the result is empty whatever the other providers list |
| Catalog.ListEndpointsForService | pkg/ecnet/catalog/endpoint.go:10-21 | the endpoints are every endpoints provider's endpoints for the service, concatenated in provider order |
| Catalog.GetDNSResolvableServiceEndpoints | pkg/ecnet/catalog/endpoint.go:24-31 | the resolvable endpoints of every provider, concatenated in provider order |
| Catalog.ListUpstreamEndpointsForService | pkg/ecnet/catalog/endpoint.go:35-41 | the upstream endpoints are exactly the listed endpoints (an empty list when there are none) |
| Catalog.ListEndpointsForServiceIdentity | pkg/ecnet/catalog/endpoint.go:44-55 | the endpoints of every provider for the identity, concatenated in provider order; empty results are skipped |
| Catalog.UpstreamEndpointsFromProviders | pkg/ecnet/catalog/endpoint.go:35-41 | with the multicluster and Kubernetes providers, every upstream endpoint is one of them listed, and one that only the multicluster provider listed carries the service's target port when that is set |
| K8s.AddressEndpointsMembership | pkg/ecnet/service/providers/fsm/client.go:58-78 | for one port, an endpoint is produced exactly when some address fits the subdomain, its IP parses, and the endpoint is built from that address and parsed IP |
| K8s.PortEndpointsMembership | pkg/ecnet/service/providers/fsm/client.go:50-79 | for one subset, an endpoint is produced exactly when it is built from a port that matches the TargetPort (or any port when the TargetPort is 0) and a kept address |
| K8s.SubsetEndpointsMembership | pkg/ecnet/service/providers/fsm/client.go:49-80 | an endpoint is listed exactly when it is built from a kept port and a kept address of one subset |
| K8s.CollectEndpoints | pkg/ecnet/service/providers/kube/client.go:43-70 | the three nested loops list the endpoints subset by subset, port by port and address by address, skipping other ports, other hostnames and unparseable IPs |
| K8s.ClusterIPEndpoints | pkg/ecnet/service/providers/kube/client.go:101-106 | one endpoint per service port, in port order, each at the cluster IP with that port and nothing else set but the cluster key |
| K8s.AppendClusterIPEndpoints | pkg/ecnet/service/providers/fsm/client.go:108-114 | the loop over the service ports appends exactly those cluster-IP endpoints |
| FsmProvider.ListEndpointsForService | pkg/ecnet/service/providers/fsm/client.go:41-82 | no endpoints when the Endpoints lookup fails; otherwise the listed endpoints, each annotated from its address and port |
| FsmProvider.ListedEndpointFromAnnotations | pkg/ecnet/service/providers/fsm/client.go:54-76 | every listed endpoint matches the TargetPort when it is set, and comes from a kept address whose parsed IP it carries together with the cluster key, load-balancer type, path and weight annotations stored for that address and port (a missing or non-numeric weight gives 0, one out of the 32-bit range 4294967295) |
| FsmProvider.ParsedWeightFits | pkg/ecnet/service/providers/fsm/client.go:68-74 | a weight parsed with bit size 32 is unchanged by the conversion to a 32-bit weight |
| FsmProvider.GetResolvableEndpointsForService | pkg/ecnet/service/providers/fsm/client.go:86-117 | nothing without a Service; the listed endpoints for a headless service; nothing for an unparseable cluster IP; otherwise one endpoint per service port at the cluster IP |
| FsmProvider.ClusterIPResolvesPerPort | pkg/ecnet/service/providers/fsm/client.go:101-116 | a service with a parseable cluster IP resolves to one endpoint per service port, at that IP, with that port and the provider's name as cluster key |
| FsmProvider.PrefixProtocolIsFirstMatch | pkg/ecnet/service/providers/fsm/client.go:146-152 | the protocol is the first supported protocol p for which the port name starts with p followed by "-", and http when there is none |
| FsmProvider.ServerFirstPrefixWins | pkg/ecnet/service/providers/fsm/client.go:147-151 | a port name starting with "tcp-server-first-" gives "tcp-server-first", not "tcp" |
| FsmProvider.ProtocolFromPortName | pkg/ecnet/service/providers/fsm/client.go:146-152 | the preference loop with its break returns the first matching protocol |
| FsmProvider.AppendSubsetTargets | pkg/ecnet/service/providers/fsm/client.go:164-175 | one mesh service per endpoint port of every subset, in order, with that port as TargetPort and every other field copied |
| FsmProvider.ServiceToMeshServices | pkg/ecnet/service/providers/fsm/client.go:130-179 | the mesh services of every service port, in port order; a port whose Endpoints lookup fails contributes none |
| FsmProvider.PortTargetsShape | pkg/ecnet/service/providers/fsm/client.go:165-174 | a port-level mesh service differs from its service port's mesh service only in its TargetPort, which is one of the endpoint ports |
| FsmProvider.SubsetTargetsShape | pkg/ecnet/service/providers/fsm/client.go:164-175 | every mesh service produced from the subsets differs from the port's mesh service only in its TargetPort |
| FsmProvider.MeshServicesFromServicePorts | pkg/ecnet/service/providers/fsm/client.go:130-179 | every mesh service keeps the service's namespace, name and UID and takes its 16-bit port and its protocol (appProtocol first, else the name prefix) from one of the service's ports |
| FsmProvider.ListServices | pkg/ecnet/service/providers/fsm/client.go:120-126 | the mesh services of every watched service, concatenated in order |
| KubeProvider.ListEndpointsForService | pkg/ecnet/service/providers/kube/client.go:34-75 | no endpoints when the Endpoints lookup fails; otherwise the listed endpoints, each with only IP and port |
| KubeProvider.ListedEndpointsExactly | pkg/ecnet/service/providers/kube/client.go:43-70 | an endpoint is listed exactly when it has no cluster key, type, weight or path and some subset has a port matching the TargetPort and a kept address whose parsed IP it carries |
| KubeProvider.GetResolvableEndpointsForService | pkg/ecnet/service/providers/kube/client.go:79-109 | nothing without a Service; the listed endpoints for a headless service; nothing for an unparseable cluster IP; otherwise one endpoint per service port at the cluster IP with an empty cluster key |
| KubeProvider.HeadlessResolvesToEndpoints | pkg/ecnet/service/providers/kube/client.go:89-92 | a service without a cluster IP, or with "None", resolves to exactly its listed endpoints |
| KubeProvider.ListServices | pkg/ecnet/service/providers/kube/client.go:112-118 | the translated mesh services of every watched service, concatenated in order |
| Configurator.CacheKey | pkg/ecnet/configurator/client.go:34-36 | the key is the namespace, one slash, then the config name |
| Configurator.CacheKeyInjective | pkg/ecnet/configurator/client.go:34-36 | for namespaces without a slash, equal keys mean equal namespace and name |
| Configurator.GetEcnetConfig | pkg/ecnet/configurator/client.go:39-55 | the cached config when the lookup finds one; the zero-valued config on a lookup error or a missing object |
| Configurator.MissingConfigDefaults | pkg/ecnet/configurator/methods.go:46-71 | without a cached config the DNS proxy is disabled with empty upstream servers and the proxy server port is 0 |
| Configurator.GetSidecarLogLevel | pkg/ecnet/configurator/methods.go:61-67 | the configured log level when set, else "error"; never empty |
| Configurator.GetRepoServerIPAddr | pkg/ecnet/configurator/methods.go:75-84 | the environment variable when set, else the configured address when set, else 127.0.0.1; never empty |
| Configurator.TrimCodebase | pkg/ecnet/configurator/methods.go:92-97 | at most one trailing slash and then at most one leading slash are removed, and what remains is the slice of the input between them |
| Configurator.TrimCodebaseWrapped | pkg/ecnet/configurator/methods.go:92-97 | a codebase written between two slashes loses exactly those two |
| Configurator.TrimCodebaseClean | pkg/ecnet/configurator/methods.go:92-97 | a codebase without leading or trailing slash is kept as it is |
| Configurator.GetRepoServerCodebase | pkg/ecnet/configurator/methods.go:87-99 | the environment variable when set, else the configured codebase, then trimmed of one slash at each end |
| Configurator.GetConfigResyncInterval | pkg/ecnet/configurator/methods.go:103-111 | the parsed interval, or 0 when it does not parse |
| Configurator.EnabledPluginsAppend | pkg/ecnet/configurator/methods.go:119-128 | filtering the disabled plugins distributes over concatenation, so configuration order is kept |
| Configurator.EnabledPluginsFromSpecs | pkg/ecnet/configurator/methods.go:119-128 | every plugin of a chain is built in and comes from an enabled spec with its name and priority |
| Configurator.ChainPlugins | pkg/ecnet/configurator/methods.go:118-128 | one chain's loop keeps the enabled specs in order as built-in plugins |
| Configurator.GetGlobalPluginChains | pkg/ecnet/configurator/methods.go:114-170 | exactly the four mount points inbound-tcp, inbound-http, outbound-tcp and outbound-http, each with the enabled plugins of its configured chain |
| TrafficPolicy.ClusterSet | pkg/ecnet/trafficpolicy/trafficpolicy.go:23-26 | the set holds exactly the listed clusters, duplicates collapsed |
| TrafficPolicy.NewRouteWeightedCluster | pkg/ecnet/trafficpolicy/trafficpolicy.go:22-32 | the route is kept as given and its cluster set holds exactly the given clusters |
| TrafficPolicy.SumWeightsRemove | pkg/ecnet/trafficpolicy/trafficpolicy.go:52-59 | the total weight of a cluster set does not depend on the order the set is iterated in |
| TrafficPolicy.SumWeightsUnion | pkg/ecnet/trafficpolicy/trafficpolicy.go:52-59 | the total weight of two disjoint sets is the sum of their totals |
| TrafficPolicy.TotalClustersWeight | pkg/ecnet/trafficpolicy/trafficpolicy.go:52-59 | the loop over the set in any order adds each cluster's weight exactly once |
| TrafficPolicy.AddRouteResult | pkg/ecnet/trafficpolicy/trafficpolicy.go:65-86 | a match not yet routed is appended with its cluster set; the first route with the match leaves the routes unchanged when its set is the same, else the result is an error naming that route and the policy |
| TrafficPolicy.AddRouteIdempotent | pkg/ecnet/trafficpolicy/trafficpolicy.go:71-75 | adding the same match with the same clusters again changes nothing and reports no error |
| TrafficPolicy.AddRouteKeepsMatchesUnique | pkg/ecnet/trafficpolicy/trafficpolicy.go:65-86 | a successful AddRoute never gives two routes the same match |
| TrafficPolicy.AddRouteConflict | pkg/ecnet/trafficpolicy/trafficpolicy.go:76 | an error is reported only for a match already routed to a different cluster set, and it carries that route and the policy's name |
| TrafficPolicy.OutboundTrafficPolicy.constructor | pkg/ecnet/trafficpolicy/trafficpolicy.go:44-49 | the policy has the given name and hostnames and no routes |
| TrafficPolicy.OutboundTrafficPolicy.AddRoute | pkg/ecnet/trafficpolicy/trafficpolicy.go:65-86 | name and hostnames are kept; on success the routes become AddRouteResult's routes; on a conflict the error is returned and the routes are unchanged |
| TrafficPolicy.MergeRules | pkg/ecnet/trafficpolicy/trafficpolicy.go:116-131 | each latest rule is merged in turn, into the first rule with the same route or appended |
| TrafficPolicy.PrincipalsOfAppend | pkg/ecnet/trafficpolicy/trafficpolicy.go:116-131 | the principals granted for a route by two rule lists together are the union of each list's |
| TrafficPolicy.MergeRuleSpec | pkg/ecnet/trafficpolicy/trafficpolicy.go:117-128 | one merge step keeps routes distinct and grants for every route exactly what the rules and the latest rule granted together |
| TrafficPolicy.MergedRulesUnion | pkg/ecnet/trafficpolicy/trafficpolicy.go:116-131 | merging into rules with distinct routes keeps them distinct, and every route ends up granting exactly the union of what the original and the latest rules granted for it |
| TrafficPolicy.StrLessIsStrictWeakOrder | pkg/ecnet/trafficpolicy/trafficpolicy.go:152 | string order is a strict weak order, so sorting by it is well defined |
| TrafficPolicy.MinExists | pkg/ecnet/trafficpolicy/trafficpolicy.go:152 | a non-empty set of strings has a least element |
| TrafficPolicy.MinOf | pkg/ecnet/trafficpolicy/trafficpolicy.go:152 | the least string of a non-empty set is in the set and nothing in the set is smaller |
| TrafficPolicy.SortedOfSpec | pkg/ecnet/trafficpolicy/trafficpolicy.go:148-153 | the increasing listing of a set is strictly sorted and holds exactly the set's strings |
| TrafficPolicy.StrictlySortedUnique | pkg/ecnet/trafficpolicy/trafficpolicy.go:152 | two strictly sorted lists with the same strings are equal, so the sorted union does not depend on the set's iteration order |
| TrafficPolicy.UnionIfSubsetNonEmpty | pkg/ecnet/trafficpolicy/trafficpolicy.go:134-156 | the union is non-empty exactly when one side's hostnames are a subset of the other's and some hostname is given |
| TrafficPolicy.DistinctCounts | pkg/ecnet/trafficpolicy/trafficpolicy.go:148-151 | a list without repeats holds each string at most once |
| TrafficPolicy.CountsDistinct | pkg/ecnet/trafficpolicy/trafficpolicy.go:148-151 | a list holding each string at most once has no repeats |
| TrafficPolicy.SortStrings | pkg/ecnet/trafficpolicy/trafficpolicy.go:152 | sort.Strings on the collected union yields a strictly increasing list of exactly its strings |
| TrafficPolicy.SlicesUnionIfSubset | pkg/ecnet/trafficpolicy/trafficpolicy.go:134-156 | the sorted union when either hostname set is a subset of the other, and the empty list otherwise |
| TrafficPolicy.NewInboundTrafficPolicy | pkg/ecnet/trafficpolicy/trafficpolicy.go:35-41 | the policy has the given name and hostnames and no rules |
| TrafficPolicy.MergeInboundPolicies | pkg/ecnet/trafficpolicy/trafficpolicy.go:95-111 | each latest policy in turn is merged into every policy so far (including latest ones appended before it) whose hostnames it overlaps, or appended when it overlaps none |
| TrafficPolicy.MergeIntoOverlapping | pkg/ecnet/trafficpolicy/trafficpolicy.go:98-105 | every policy whose hostname union with the latest one is non-empty takes that union and the merged rules, the others are unchanged, and the flag says whether any overlapped |
| TrafficPolicy.MergeInboundSpec | pkg/ecnet/trafficpolicy/trafficpolicy.go:96-109 | merging one latest policy keeps every original in place under its name, appends the latest policy exactly when it overlaps none, and an overlapped policy then holds the hostnames of both |
| DnsProxy.SwapRanges | bpf/ecnet_dnsproxy.c:209-224 | the two equal-length ranges are exchanged and every other byte is kept |
| DnsProxy.SwapRangesInvolution | bpf/ecnet_dnsproxy.c:209-224 | swapping twice gives back the original packet |
| DnsProxy.SwapSrcDstMac | bpf/ecnet_dnsproxy.c:209-216 | the destination and source MAC addresses of the Ethernet header are exchanged in place, nothing else changes |
| DnsProxy.SwapSrcDstUdp | bpf/ecnet_dnsproxy.c:218-224 | the source and destination UDP ports are exchanged in place, nothing else changes |
| DnsProxy.WordsSum | bpf/ecnet_dnsproxy.c:240-246 | a sum of k 16-bit words is at most 0xFFFF times k |
| DnsProxy.WordsRead | bpf/ecnet_dnsproxy.c:240-246 | the loop reads at most MAX_UDP_SIZE / 2 whole words and never past the end of the packet, and stops early only when the next word would run past the end |
| DnsProxy.UdpSumFits | bpf/ecnet_dnsproxy.c:226-253 | the 32-bit accumulator never wraps around |
| DnsProxy.AddU32 | bpf/ecnet_dnsproxy.c:232-250 | addition on the 32-bit accumulator is exact while it does not wrap |
| DnsProxy.UdpChecksumAccumulate | bpf/ecnet_dnsproxy.c:226-250 | the accumulator ends as the pseudo-header words, the protocol, the UDP length, every whole word of header and payload read, and an odd trailing byte |
| DnsProxy.CalUdpCsum | bpf/ecnet_dnsproxy.c:226-257 | cal_udp_csum as written: the complement of the sum with its high half added once to its low half |
| DnsProxy.OnesFoldCongruent | bpf/ecnet_dnsproxy.c:259-268 | the full ones'-complement fold keeps the value modulo 0xFFFF, and a non-zero sum folds to a non-zero value |
| DnsProxy.AddMultipleMod | bpf/ecnet_dnsproxy.c:259-268 | adding a multiple of 0xFFFF keeps the residue modulo 0xFFFF |
| DnsProxy.CsumFoldHelper | bpf/ecnet_dnsproxy.c:259-268 | for any 32-bit input the four conditional folds give the complement of the full ones'-complement fold |
| DnsProxy.CalUdpCsumFolded | bpf/ecnet_dnsproxy.c:252-256 | with the fold of csum_fold_helper, the checksum is the complement of the ones'-complement sum, congruent to it modulo 0xFFFF |
| DnsProxy.UdpChecksumFoldedVerifies | bpf/ecnet_dnsproxy.c:226-257 | the sum plus the folded checksum is 0 modulo 0xFFFF, which is what the receiver checks |
| DnsProxy.SingleFoldDropsCarry | bpf/ecnet_dnsproxy.c:252-253 | on a concrete datagram whose sum is 0x2FFFE, cal_udp_csum writes 0xFFFF where the correct checksum is 0xFFFE |
| DnsProxy.CarryChecksums | bpf/ecnet_dnsproxy.c:252-253 | any datagram summing to 0x2FFFE gets 0xFFFF as written and 0xFFFE when folded, and the written value fails the receiver's check |
| DnsProxy.CarryPacketSum | bpf/ecnet_dnsproxy.c:232-250 | the concrete datagram's accumulated sum is 0x2FFFE |
| DnsProxy.CarryPacketBytes | bpf/ecnet_dnsproxy.c:232-250 | the concrete datagram holds the header bytes the sum is taken over |
| DnsProxy.ParseQuery | bpf/ecnet_dnsproxy.c:304-367 | -1 when no zero byte ends the name within 256 bytes; otherwise the name bytes, zero-padded, the type and class when they lie inside the packet (else 0), and a length of the name plus 5 |
| DnsProxy.BeBytes32RoundTrip | bpf/ecnet_dnsproxy.c:369-386 | the 4 network-order bytes of a 32-bit value read back to that value |
| DnsProxy.AnswerRoundTrip | bpf/ecnet_dnsproxy.c:369-386 | the 16 answer bytes read back as a name pointer to offset 12, type A, class IN, the TTL and the address |
| DnsProxy.CreateQueryResponse | bpf/ecnet_dnsproxy.c:369-386 | the response record is written at the start of the buffer, the address right after buf_size plus 12 bytes, the size grows by 16, and every other byte past the record is kept |
| DnsProxy.SetTopBit | bpf/ecnet_dnsproxy.c:388-400 | the top bit is set and the low seven bits kept |
| DnsProxy.ResponseHeader | bpf/ecnet_dnsproxy.c:388-400 | qr and ra are set with the other flag bits kept, the answer count is 1 in network order, and every other header byte is kept |
| DnsProxy.ResponseHeaderIdempotent | bpf/ecnet_dnsproxy.c:388-400 | turning a header into a response twice is the same as once |
| DnsProxy.ModifyDnsHeaderResponse | bpf/ecnet_dnsproxy.c:388-400 | the header in the packet becomes the response header in place |
| DnsProxy.CopyToPktBuf | bpf/ecnet_dnsproxy.c:405-432 | n bytes are copied to dst exactly when they fit before the end of the packet, whichever of the three copy paths is taken; otherwise the packet is untouched |
| Fnv.FoldAppend | pkg/ecnet/pipy/util/hash.go:21-22 | writing a and then b leaves the same state as writing a + b at once |
| Fnv.Sum64IsFnv1 | pkg/ecnet/pipy/util/hash.go:20-28 | the sum of one write equals the FNV-1 reference definition, one multiply-then-xor step per byte from the offset basis |
| Fnv.HashFromString | pkg/ecnet/pipy/util/hash.go:20-28 | succeeds exactly when the write does not fail, and then gives the FNV-1 hash |
| Fnv.Hash | pkg/ecnet/pipy/util/hash.go:11-16 | the FNV-1 hash, or the current time's nanosecond field when hashing fails |
| Fnv.HashOfConcat | pkg/ecnet/proxyserver/server/jobs.go:122-123 | hashing the document with the plugin-set version appended equals writing that version into the document's hash state |
| Bytes.SubU64 | pkg/ecnet/proxyserver/server/jobs.go:130 | uint64 subtraction: exact when no borrow, wrapped by 2^64 otherwise |
| Seqs.FirstIndex | pkg/ecnet/trafficpolicy/trafficpolicy.go:71-78 | the index of the first element satisfying the predicate, none exactly when no element does |
| Sorting.InsSortMultiset | pkg/ecnet/proxyserver/server/policy.go:244-248 | sorting permutes: the result has the input's elements with their multiplicities |
| Sorting.InsSortSorted | pkg/ecnet/proxyserver/server/policy.go:244-248 | with a strict weak order as comparator, the result is sorted |
| Sorting.InsertionSort | pkg/ecnet/proxyserver/server/policy.go:244-248 | the array is sorted in place by insertion, as sort.Sort does for short lists |
| Registry.Proxy.constructor | pkg/ecnet/proxyserver/registry/registry.go:24-26 | a proxy has the drawn UUID and ETag 0 |
| Registry.ProxyRegistry.constructor | pkg/ecnet/proxyserver/registry/registry.go:13-17 | a new registry has no connected proxy |
| Registry.ProxyRegistry.RegisterProxy | pkg/ecnet/proxyserver/registry/registry.go:20-29 | the cached proxy is returned when there is one; otherwise a fresh proxy with the new UUID and ETag 0 is cached and returned |
| Registry.ProxyRegistry.GetConnectedProxy | pkg/ecnet/proxyserver/registry/registry.go:32-36 | the cached proxy, if any |
| Registry.RegisterTwice | pkg/ecnet/proxyserver/registry/registry.go:20-36 | a second registration returns the first proxy whatever UUID it would draw, and it is the connected proxy |
| Broadcast.NextKeepsInv | pkg/ecnet/proxyserver/server/broadcast.go:32-59 | every event keeps a pending reconfirmation armed; a fire clears it and an update sets it |
| Broadcast.TraceKeepsInv | pkg/ecnet/proxyserver/server/broadcast.go:20-59 | from the start, the invariant holds after every sequence of events |
| Broadcast.UpdateThenReconfirm | pkg/ecnet/proxyserver/server/broadcast.go:34-57 | after an update the timer waits 5 seconds, the fire re-arms it for 10 seconds, and a second fire without retries leaves it unarmed |
| Broadcast.IdleUntilEvent | pkg/ecnet/proxyserver/server/broadcast.go:23-38 | an idle loop is armed again only by an update or a retry, a retry for 5 seconds |
| Broadcast.RetryRefires | pkg/ecnet/proxyserver/server/broadcast.go:23-28 | a job asking for a retry makes the timer fire again, 5 seconds later unless a reconfirmation is pending |
| Broadcast.Listener.constructor | pkg/ecnet/proxyserver/server/broadcast.go:20-30 | the timer is armed for 20 seconds and a reconfirmation is pending |
| Broadcast.Listener.OnProxyUpdate | pkg/ecnet/proxyserver/server/broadcast.go:34-38 | the loop takes the update step |
| Broadcast.Listener.SlidingTimerReset | pkg/ecnet/proxyserver/server/broadcast.go:23-28 | the loop takes the retry step: the timer re-armed for 5 seconds, nothing else |
| Broadcast.Listener.FireExistProxies | pkg/ecnet/proxyserver/server/broadcast.go:62-71 | exactly one proxy: the cached one, or a newly registered one with the new UUID when none is cached |
| Broadcast.Listener.RunJob | pkg/ecnet/proxyserver/server/broadcast.go:43-51 | the job builds the document, and its store calls and the proxy's new ETag are those of publishing it against the proxy's previous ETag; it asks for a retry exactly when its outbound step is not ready |
| Broadcast.Listener.RunJobAndReset | pkg/ecnet/proxyserver/server/broadcast.go:43-51 | one turn of the loop: the document is published to the proxy, and the timer is re-armed for 5 seconds exactly when the job was not ready, else left as it was; the reconfirmation flag is untouched |
| Broadcast.Listener.RunJobs | pkg/ecnet/proxyserver/server/broadcast.go:43-53 | the loop runs the one job to completion: the document is published to the proxy, a job that is not ready re-arms the timer for 5 seconds, and the reconfirmation flag is untouched |
| Broadcast.Listener.OnTimerFire | pkg/ecnet/proxyserver/server/broadcast.go:40-57 | the loop takes the fire step, with a retry exactly when the job's outbound step was not ready. The job runs on the cached proxy, or on a newly registered one with ETag 0, and publishes its built document to it: the store calls and the new ETag are those of the publication |
| PipyPlugin.ChainURIRecoversName | pkg/ecnet/proxyserver/server/plugin.go:11-13 | both kinds of URI are a prefix, the plugin name and ".js", so the name can be read back |
| PipyPlugin.ChainURIInjective | pkg/ecnet/proxyserver/server/plugin.go:24-28 | two plugins of the same kind with the same URI have the same name |
| PipyPlugin.URIs | pkg/ecnet/proxyserver/server/plugin.go:23-29 | one URI per plugin, in list order |
| PipyPlugin.URIsOfInsert | pkg/ecnet/proxyserver/server/plugin.go:22-29 | inserting a plugin adds exactly its URI to the multiset of URIs |
| PipyPlugin.URIsOfInsSort | pkg/ecnet/proxyserver/server/plugin.go:22-29 | sorting the plugins keeps the multiset of URIs |
| PipyPlugin.ChainURIsOrdered | pkg/ecnet/proxyserver/server/plugin.go:19-29 | a chain has one URI per plugin, the same URIs with the same multiplicities, in non-increasing priority order |
| PipyPlugin.Chains | pkg/ecnet/proxyserver/server/plugin.go:17-32 | exactly the mount points with a non-empty plugin list get a chain |
| PipyPlugin.ChainsSpec | pkg/ecnet/proxyserver/server/plugin.go:18-31 | such a mount point's chain holds one URI per plugin with the same multiset of URIs |
| PipyPlugin.SortedChainURIs | pkg/ecnet/proxyserver/server/plugin.go:19-30 | the plugins are sorted in place and the URIs collected from the sorted slice |
| PipyPlugin.BuildChains | pkg/ecnet/proxyserver/server/plugin.go:17-32 | the loop over the mount points, in any map order, builds exactly the chains |
| PipyPlugin.GlobalChains | pkg/ecnet/proxyserver/server/plugin.go:16 | the configurator serves exactly the four global mount points |
| PipyPlugin.SetSidecarChain | pkg/ecnet/proxyserver/server/plugin.go:15-33 | the document's chains are replaced by those built from the configurator, and nothing else in it changes |
| PipyPlugin.GlobalChainsAllBuiltIn | pkg/ecnet/proxyserver/server/plugin.go:16 | every plugin the configurator serves is a built-in one |
| PipyPlugin.EnabledPluginsBuiltIn | pkg/ecnet/proxyserver/server/plugin.go:16 | the enabled plugins of a configured chain are all built in |
| PipyPlugin.ChainURIFrom | pkg/ecnet/proxyserver/server/plugin.go:23-29 | every URI of a chain is the URI of one of its plugins |
| PipyPlugin.GlobalChainsBuiltIn | pkg/ecnet/proxyserver/server/plugin.go:15-33 | only the four global mount points can carry a chain, and every URI is a built-in plugin's name followed by ".js" |

## Left out

- I/O of every kind is outside the model: the gRPC and repository transports, the informer caches and Kubernetes API calls, and the log output. The store's answers (whether derive reports success, whether derive, batch or delete fail) are parameters of `Jobs.PublishEnv`.
- `json.Marshal` and `json.MarshalIndent` are abstract functions of the document. The model proves nothing about the JSON text itself, only that equal documents serialize alike.
- The clock (`time.Now`, its nanosecond field for the hash fallback) and the UUID drawn for a new proxy are parameters.
- Concurrency is left out: the goroutines, the channels of the broadcast loop, the work queue, `repoLock` and the proxy mutex. Jobs run sequentially, and the listener's `select` becomes one event at a time.
- `informProxy` (broadcast.go:73-83, inform.go:11-40) is left out. For a newly registered proxy it starts a goroutine that subscribes the proxy to proxy-update broadcasts and queues a job on every broadcast, a second path that runs jobs without the sliding timer. The listener models `fireExistProxies` up to the registration.
- `proxy.Quit`, the channel that ends that subscription when the proxy's session closes (inform.go:29-31), is left out with it.
- `proxy.MeshConf`, the configurator that `features` stores on the proxy (jobs.go:100), is left out: no modelled operation reads it back. `Jobs.Features` reads the configurator from the job's environment instead.
- `strings.ToLower` and `strings.EqualFold` fold ASCII letters only, since the strings the model compares are protocol names and log levels.
- `net.ParseIP`, the service FQDN, the service subdomain and `time.ParseDuration` are parameters, as is the mapping of a traffic match to its upstream mesh service. IPv6 is not treated apart from IPv4.
- The upstream mapping `CompileEnv.upstreamFQDN` is a total function of the traffic match. In the source `trafficMatchToMeshSvc` is partial: it returns nil for a name that does not split on `_` into four chunks, or whose second chunk is not a `<namespace>/<name>` pair (util.go:186-196). The expected form is `x_<namespace>/<name>_<port>_<protocol>`. The HTTP and gRPC branch (util.go:40-44) and the HTTPS branch (util.go:101-105) then call `FQDN()` on that nil service and read its `TargetPort`, a nil dereference that makes `generatePipyOutboundTrafficRoutePolicy` panic. The model does not represent that panic. For such a match, `MatchConfigs`, and through it `CompileMatchRules`, `CompileBucket` and `CompileTrafficMatch`, use whatever FQDN the parameter gives. The target port is the match's destination port as a uint16 in both, as `trafficMatchToMeshSvc` sets it.
- `k8s.ServiceToMeshServices` is a parameter of `KubeProvider`. Its fsm counterpart in `FsmProvider` is modelled.
- Iterating a cluster set (mapset's `Iter`) is an `Enumeration`: a function that lists each cluster of a set exactly once, in an order the model leaves open. The order matters only when two clusters of one set share a name: it decides which of them the depend clusters keep and whose weight the target clusters end with.
- Go's nil and empty slices and maps are the same value in the model: where the source holds nil, the model holds the empty sequence or map. They do not serialize alike. Several document fields have no `omitempty`: `Headers` and `Methods` (types.go:124-125), `RouteRules` (types.go:187), `HttpHostPort2Service` and `HttpServiceRouteRules` (types.go:202-203), `TrafficMatches` and `ClustersConfigs` (types.go:235-236). On these fields `encoding/json` writes `null` for nil and `[]` or `{}` for an empty value. One example is the nil method list left after adding `*`, against an empty one. So the bytes the ETag hashes can tell apart two documents that the model treats as one value. `Jobs.PublishSettles` and the other publication contracts speak of the model's values and do not cover that difference.
- `sort.Sort` is modelled as the insertion sort it uses on slices of at most 12 elements. Its pattern-defeating quicksort for longer slices is left out, so on longer rule lists the order among elements the comparator leaves unordered is not the source's.
- Plugin priorities are float32 in the source and integers here. Only their order matters, and the order is the same.
- The check for an empty path-match type after `matchType` (util.go:59-61) never succeeds, since `matchType` always returns a type. The model has no branch for it.
- `PipyUtil` methods require `ConfigsNamed`: every route config has a name or no routes. For a config with an empty name, `newHTTPServiceRouteRules` returns a nil `*OutboundHTTPRouteRules` (policy.go:128-130). Adding the config's first route then ranges over the rule list through that nil pointer (policy.go:162-163), a panic the model does not represent.
- `PipyUtil.BalanceClusters`, the depend-cluster loop of the balance pass, requires `Keyed`: each depend entry is recorded under its own cluster name. Pass 1 only ever builds such maps.
- `Jobs.Reorder` and the compiler passes require `WellFormed`: the two views of the traffic matches agree, as pass 1 keeps them. The source aliases one match object from both maps. The model keys matches by port and name and keeps the per-port lists as names.
- `MergeRules` and `MergeInboundPolicies` update the original policies through pointers in the source. The model returns the updated values.
- TrafficPolicy.MergeInboundPolicies: does not model rule sharing. In the source, a latest `*Rule` appended by `MergeRules` (trafficpolicy.go:126-128) to two policies that a latest policy overlaps is one object. A later union of principals through one of them (trafficpolicy.go:122) then also shows in the other. The model gives each policy its own copy, so such a later union changes only the policy it is merged into. For example, take originals with hostnames ["a"] and ["b"] and no rules. Merge first a latest policy with hostnames [] and a rule for route r allowing {p}, then one with hostnames ["a"] allowing {q} on r. The source ends with {p, q} on r in both policies, the model with {p, q} in the first and {p} in the second.
- TrafficPolicy.MergeIntoOverlapping: its "every policy the latest one does not overlap is unchanged" holds of the model's values. In the source, such a policy can still change when it shares a `*Rule` with an overlapped one, as the line above describes.
- The load-balancer type names and the codebase constants are parameters.
- Kernel-side eBPF is left out: the XDP entry program `ecnet_dns_proxy`, `match_a_records` and `ipv4_csum`, and the other programs in `bpf/`. They consist of map lookups and kernel helper calls.
- DnsProxy.CalUdpCsum: models `cal_udp_csum` as written, with its single fold. The corrected checksum, with the full fold, is `DnsProxy.CalUdpCsumFolded`.

## Findings

| source | as written | input that shows it | evidently intended | confidence | as-written member | corrected member |
|---|---|---|---|---|---|---|
| bpf/ecnet_dnsproxy.c:252-253 | `cal_udp_csum` folds the 32-bit sum once (high half added to low half) and truncates to 16 bits, dropping the carry that fold can produce | an IPv4 UDP datagram from 255.255.255.255 to 0.0.0.0, ports 170 to 53, UDP length 8, checksum field 0; its 32-bit sum is 0x2FFFE, which as written gives the checksum 0xFFFF | the ones'-complement checksum of RFC 1071 section 4.1, folding until no carry remains (as `csum_fold_helper` does), giving 0xFFFE | not executed | DnsProxy.SingleFoldDropsCarry | DnsProxy.CalUdpCsumFolded |
