/**
 * The configuration job of the proxy server: for one proxy it builds a fresh document
 * (features, plugin chains, outbound routes and balance, rebalancing, route reordering) and
 * publishes it to the repository when its hash differs from the proxy's ETag.
 *
 * The repository client is an abstract store: its calls are recorded in order and their
 * outcomes are parameters. Serialization, the clock and the configured codebase paths are
 * parameters as well.
 */
module Jobs {
  import opened Wrappers
  import opened Bytes
  import opened Strings
  import Sorting
  import Fnv
  import opened Mesh
  import Configurator
  import opened PipyPolicy
  import opened PipyUtil
  import PipyPlugin
  import opened Registry

  // ---- features ----

  /**
   * features: with a mesh catalog, the document takes the configured (raw) sidecar log
   * level, unless its own level already equals it up to case, and the local DNS proxy
   * built from the configured switch and upstream addresses; with any other catalog it is
   * left alone.
   */
  method Features(isMeshCatalog: bool, cfg: Configurator.Client, pipyConf: PipyConf)
    modifies pipyConf
    ensures !isMeshCatalog ==> pipyConf.Value() == old(pipyConf.Value())
    ensures isMeshCatalog ==>
      var level := Configurator.GetEcnetConfig(cfg).spec.sidecar.logLevel;
      EqualFold(pipyConf.spec.sidecarLogLevel, level)
      && pipyConf.spec.sidecarLogLevel == (if EqualFold(old(pipyConf.spec.sidecarLogLevel), level) then old(pipyConf.spec.sidecarLogLevel) else level)
      && (pipyConf.spec.localDNSProxy.Some? <==> Configurator.LocalDNSProxyEnabled(cfg))
      && DNSProxySet(pipyConf.spec.localDNSProxy, Configurator.LocalDNSProxyEnabled(cfg),
                     Configurator.GetLocalDNSProxyPrimaryUpstream(cfg), Configurator.GetLocalDNSProxySecondaryUpstream(cfg))
    ensures pipyConf.Value().(spec := old(pipyConf.spec)) == old(pipyConf.Value())
  {
    if isMeshCatalog {
      var _ := pipyConf.SetSidecarLogLevel(Configurator.GetEcnetConfig(cfg).spec.sidecar.logLevel);
      pipyConf.SetLocalDNSProxy(Configurator.LocalDNSProxyEnabled(cfg), Configurator.GetLocalDNSProxyPrimaryUpstream(cfg),
                                Configurator.GetLocalDNSProxySecondaryUpstream(cfg));
    }
  }

  // ---- plugin ----

  /** plugin: the chains are rebuilt from the configurator, and the plugin-set version is always empty. */
  method Plugin(cfg: Configurator.Client, pipyConf: PipyConf) returns (pluginSetVersion: string)
    modifies pipyConf
    ensures pluginSetVersion == ""
    ensures pipyConf.chains == PipyPlugin.Chains(PipyPlugin.GlobalChains(cfg))
    ensures pipyConf.Value().(chains := old(pipyConf.chains)) == old(pipyConf.Value())
  {
    pipyConf.chains := map[];
    PipyPlugin.SetSidecarChain(cfg, pipyConf);
    pluginSetVersion := "";
  }

  // ---- outbound ----

  /** Every cluster a compiled HTTP or TCP rule targets has a cluster entry with endpoints. */
  predicate TargetsResolved(otp: OutboundTrafficPolicy) {
    (forall k, n, i, c ::
      (k in otp.namedTrafficMatches && n in otp.namedTrafficMatches[k].httpServiceRouteRules
       && 0 <= i < |otp.namedTrafficMatches[k].httpServiceRouteRules[n]|
       && c in otp.namedTrafficMatches[k].httpServiceRouteRules[n][i].targetClusters)
      ==> ClusterResolved(otp.clustersConfigs, c))
    && (forall k, c ::
      (k in otp.namedTrafficMatches && otp.namedTrafficMatches[k].tcpServiceRouteRules.Some?
       && c in otp.namedTrafficMatches[k].tcpServiceRouteRules.value)
      ==> ClusterResolved(otp.clustersConfigs, c))
  }

  /** The outbound policy pass 1 starts from: the document's own, or an empty one. */
  function StartOf(outbound: Option<OutboundTrafficPolicy>): OutboundTrafficPolicy {
    if outbound.Some? then outbound.value else EmptyOutboundTrafficPolicy
  }

  /** What pass 1 compiles from a starting policy: the outbound policy and the depend clusters. */
  function CompiledFrom(start: OutboundTrafficPolicy, policy: OutboundMeshTrafficPolicy, env: CompileEnv): (OutboundTrafficPolicy, Depend)
    requires ConfigsNamed(policy)
  {
    CompileTrafficMatches(start, map[], policy, env, policy.trafficMatches)
  }

  /** The outbound step is ready exactly when there is nothing to balance or every depend cluster is ready. */
  predicate OutboundReady(start: OutboundTrafficPolicy, policy: OutboundMeshTrafficPolicy, env: CompileEnv,
                          upstream: MeshService -> seq<Endpoint>)
    requires ConfigsNamed(policy)
  {
    policy.trafficMatches == [] || forall n :: n in CompiledFrom(start, policy, env).1 ==> ClusterReady(policy, upstream, n)
  }

  /** Balancing the clusters of a covered policy, with every depend cluster ready, resolves every target. */
  lemma BalancedTargetsResolved(otp: OutboundTrafficPolicy, d: Depend, ccs: map<string, ClusterConfigs>,
                                policy: OutboundMeshTrafficPolicy, upstream: MeshService -> seq<Endpoint>)
    requires PolicyCovered(otp, d)
    requires BalancedFrom(otp.clustersConfigs, ccs, policy, upstream, d.Keys)
    requires forall n :: n in d ==> ClusterReady(policy, upstream, n)
    ensures TargetsResolved(otp.(clustersConfigs := ccs))
  {
    ReadyTargetsResolved(otp, d, otp.clustersConfigs, ccs, policy, upstream);
  }

  /**
   * What the outbound step does to a document's fields: the resolvable services become the
   * DNS database when there are any; with traffic matches, the outbound policy is pass 1's
   * result, clusters aside; nothing else changes.
   */
  predicate OutboundShape(before: PipyConfValue, after: PipyConfValue, policy: OutboundMeshTrafficPolicy, env: CompileEnv)
    requires ConfigsNamed(policy)
  {
    after.dnsResolveDB == (if |policy.servicesResolvableSet| > 0 then policy.servicesResolvableSet else before.dnsResolveDB)
    && (policy.trafficMatches == [] ==> after.outbound == before.outbound)
    && (policy.trafficMatches != [] ==>
          var r := CompiledFrom(StartOf(before.outbound), policy, env).0;
          after.outbound.Some? && after.outbound.value.(clustersConfigs := r.clustersConfigs) == r)
    && after.(outbound := before.outbound, dnsResolveDB := before.dnsResolveDB) == before
  }

  /**
   * On a fresh document the outbound step's result keeps pass 1's consistency, and ready
   * means every compiled target cluster has endpoints.
   */
  predicate OutboundFresh(before: PipyConfValue, after: PipyConfValue, ready: bool) {
    (before.outbound.None? && after.outbound.Some? ==> WellFormed(after.outbound.value))
    && (before.outbound.None? && ready && after.outbound.Some? ==> TargetsResolved(after.outbound.value))
  }

  /**
   * outbound: the DNS database, pass 1 and, when there are depend clusters, pass 2; ready
   * is OutboundReady. Not ready means the retry hook is called when it is set.
   */
  method Outbound(pipyConf: PipyConf, policy: OutboundMeshTrafficPolicy, env: CompileEnv,
                  upstream: MeshService -> seq<Endpoint>, hasRetry: bool) returns (ready: bool, retried: bool)
    requires ConfigsNamed(policy)
    modifies pipyConf
    ensures OutboundShape(old(pipyConf.Value()), pipyConf.Value(), policy, env)
    ensures ready <==> OutboundReady(StartOf(old(pipyConf.outbound)), policy, env, upstream)
    ensures OutboundFresh(old(pipyConf.Value()), pipyConf.Value(), ready)
    ensures retried <==> !ready && hasRetry
  {
    ghost var before := pipyConf.Value();
    if |policy.servicesResolvableSet| > 0 {
      pipyConf.dnsResolveDB := policy.servicesResolvableSet;
    }
    ghost var named := pipyConf.Value();
    var outboundDependClusters := GeneratePipyOutboundTrafficRoutePolicy(pipyConf, policy, env);
    ghost var routed := pipyConf.Value();
    ready, retried := true, false;
    if outboundDependClusters.Some? && |outboundDependClusters.value| > 0 {
      ready := GeneratePipyOutboundTrafficBalancePolicy(pipyConf, policy, upstream, outboundDependClusters.value);
      if !ready && hasRetry {
        retried := true;
      }
    }
    ghost var after := pipyConf.Value();
    assert StartOf(named.outbound) == StartOf(before.outbound);
    OutboundShapeHolds(before, named, routed, after, policy, env);
    OutboundReadyHolds(StartOf(before.outbound), outboundDependClusters, policy, env, upstream, ready);
    if before.outbound.None? && after.outbound.Some? {
      OutboundFreshHolds(routed, after, outboundDependClusters, policy, env, upstream, ready);
    }
  }

  /** The DNS step and the two passes compose to OutboundShape. */
  lemma OutboundShapeHolds(before: PipyConfValue, named: PipyConfValue, routed: PipyConfValue, after: PipyConfValue,
                           policy: OutboundMeshTrafficPolicy, env: CompileEnv)
    requires ConfigsNamed(policy)
    requires named == before.(dnsResolveDB := if |policy.servicesResolvableSet| > 0 then policy.servicesResolvableSet else before.dnsResolveDB)
    requires policy.trafficMatches == [] ==> routed == named && after == routed
    requires policy.trafficMatches != [] ==> routed.outbound == Some(CompiledFrom(StartOf(before.outbound), policy, env).0)
    requires routed.(outbound := named.outbound) == named
    requires after == routed
      || (routed.outbound.Some? && after.outbound.Some?
          && after.outbound.value.(clustersConfigs := routed.outbound.value.clustersConfigs) == routed.outbound.value
          && after.(outbound := routed.outbound) == routed)
    ensures OutboundShape(before, after, policy, env)
  {
    assert after.dnsResolveDB == routed.dnsResolveDB == named.dnsResolveDB;
    assert after.(outbound := before.outbound, dnsResolveDB := before.dnsResolveDB)
        == routed.(outbound := before.outbound, dnsResolveDB := before.dnsResolveDB)
        == named.(outbound := before.outbound, dnsResolveDB := before.dnsResolveDB);
    if policy.trafficMatches != [] {
      var r := CompiledFrom(StartOf(before.outbound), policy, env).0;
      assert after.outbound.value.(clustersConfigs := r.clustersConfigs) == r;
    }
  }

  /** Pass 2 runs exactly when pass 1 found depend clusters, so ready is OutboundReady. */
  lemma OutboundReadyHolds(start: OutboundTrafficPolicy, depend: Option<Depend>, policy: OutboundMeshTrafficPolicy, env: CompileEnv,
                           upstream: MeshService -> seq<Endpoint>, ready: bool)
    requires ConfigsNamed(policy)
    requires policy.trafficMatches == [] ==> depend.None?
    requires policy.trafficMatches != [] ==> depend == Some(CompiledFrom(start, policy, env).1)
    requires !(depend.Some? && |depend.value| > 0) ==> ready
    requires depend.Some? && |depend.value| > 0 ==> (ready <==> forall n :: n in depend.value ==> ClusterReady(policy, upstream, n))
    ensures ready <==> OutboundReady(start, policy, env, upstream)
  {
  }

  /** On a fresh document, pass 1's consistency survives pass 2, and a ready pass 2 resolves every target. */
  lemma OutboundFreshHolds(routed: PipyConfValue, after: PipyConfValue, depend: Option<Depend>, policy: OutboundMeshTrafficPolicy,
                           env: CompileEnv, upstream: MeshService -> seq<Endpoint>, ready: bool)
    requires ConfigsNamed(policy) && after.outbound.Some?
    requires policy.trafficMatches == [] ==> after.outbound.None?
    requires policy.trafficMatches != [] ==>
      var r := CompiledFrom(EmptyOutboundTrafficPolicy, policy, env);
      depend == Some(r.1) && routed.outbound == Some(r.0)
    requires !(depend.Some? && |depend.value| > 0) ==> ready && after == routed
    requires depend.Some? && |depend.value| > 0 ==>
      (ready <==> forall n :: n in depend.value ==> ClusterReady(policy, upstream, n))
      && routed.outbound.Some?
      && after.outbound.value.(clustersConfigs := routed.outbound.value.clustersConfigs) == routed.outbound.value
      && BalancedFrom(routed.outbound.value.clustersConfigs, after.outbound.value.clustersConfigs, policy, upstream, depend.value.Keys)
    ensures WellFormed(after.outbound.value)
    ensures ready ==> TargetsResolved(after.outbound.value)
  {
    var r := CompiledFrom(EmptyOutboundTrafficPolicy, policy, env);
    var ccs := after.outbound.value.clustersConfigs;
    assert after.outbound.value == r.0.(clustersConfigs := ccs);
    if depend.Some? && |depend.value| > 0 {
      FreshOutboundFacts(policy, env, upstream, ccs, depend.value.Keys);
    } else {
      assert r.1.Keys == {};
      FreshOutboundFacts(policy, env, upstream, ccs, {});
    }
  }

  /**
   * On a fresh document the outbound policy is pass 1's result with balanced clusters: it
   * keeps pass 1's consistency, and once every depend cluster is balanced and ready, every
   * target is resolved.
   */
  lemma FreshOutboundFacts(policy: OutboundMeshTrafficPolicy, env: CompileEnv, upstream: MeshService -> seq<Endpoint>,
                           ccs: map<string, ClusterConfigs>, done: set<string>)
    requires ConfigsNamed(policy)
    requires BalancedFrom(CompiledFrom(EmptyOutboundTrafficPolicy, policy, env).0.clustersConfigs, ccs, policy, upstream, done)
    ensures var r := CompiledFrom(EmptyOutboundTrafficPolicy, policy, env);
      WellFormed(r.0.(clustersConfigs := ccs))
      && (done == r.1.Keys && (forall n :: n in r.1 ==> ClusterReady(policy, upstream, n)) ==> TargetsResolved(r.0.(clustersConfigs := ccs)))
  {
    var r := CompiledFrom(EmptyOutboundTrafficPolicy, policy, env);
    CompiledPolicyInvariants(policy, env);
    WellFormedFrame(r.0, r.0.(clustersConfigs := ccs));
    if done == r.1.Keys && forall n :: n in r.1 ==> ClusterReady(policy, upstream, n) {
      BalancedTargetsResolved(r.0, r.1, ccs, policy, upstream);
    }
  }

  // ---- reorder ----

  /** Every rule list of a match in the order the insertion sort leaves it. */
  function ReorderedMatch(otm: OutboundTrafficMatch): (r: OutboundTrafficMatch)
    ensures r.(httpServiceRouteRules := otm.httpServiceRouteRules) == otm
    ensures r.httpServiceRouteRules.Keys == otm.httpServiceRouteRules.Keys
  {
    otm.(httpServiceRouteRules := map n | n in otm.httpServiceRouteRules :: Sorting.InsSort(otm.httpServiceRouteRules[n], RouteLess))
  }

  /** The outbound policy with every rule list of every match reordered. */
  function Reordered(otp: OutboundTrafficPolicy): (r: OutboundTrafficPolicy)
    ensures r.(namedTrafficMatches := otp.namedTrafficMatches) == otp
    ensures r.namedTrafficMatches.Keys == otp.namedTrafficMatches.Keys
  {
    otp.(namedTrafficMatches := map k | k in otp.namedTrafficMatches :: ReorderedMatch(otp.namedTrafficMatches[k]))
  }

  /**
   * Reordering only permutes rule lists: each list keeps its rules with their
   * multiplicities, every other part of every match is unchanged, and a list whose
   * comparator order is total up to ties is sorted.
   */
  lemma ReorderedPermutes(otp: OutboundTrafficPolicy, k: NamedPort, n: string)
    requires k in otp.namedTrafficMatches && n in otp.namedTrafficMatches[k].httpServiceRouteRules
    ensures var rules := otp.namedTrafficMatches[k].httpServiceRouteRules[n];
      var sorted := Reordered(otp).namedTrafficMatches[k].httpServiceRouteRules[n];
      multiset(sorted) == multiset(rules) && |sorted| == |rules|
      && Reordered(otp).namedTrafficMatches[k].(httpServiceRouteRules := otp.namedTrafficMatches[k].httpServiceRouteRules)
         == otp.namedTrafficMatches[k]
  {
    var rules := otp.namedTrafficMatches[k].httpServiceRouteRules[n];
    Sorting.InsSortMultiset(rules, RouteLess);
    assert |Sorting.InsSort(rules, RouteLess)| == |multiset(rules)|;
  }

  /** Reordering keeps the two views of the matches consistent and every resolved target resolved. */
  lemma ReorderedKeepsInvariants(otp: OutboundTrafficPolicy)
    ensures WellFormed(otp) ==> WellFormed(Reordered(otp))
    ensures TargetsResolved(otp) ==> TargetsResolved(Reordered(otp))
  {
    var r := Reordered(otp);
    assert forall p :: PortNames(r, p) == PortNames(otp, p);
    if TargetsResolved(otp) {
      forall k, n, i, c |
        k in r.namedTrafficMatches && n in r.namedTrafficMatches[k].httpServiceRouteRules
        && 0 <= i < |r.namedTrafficMatches[k].httpServiceRouteRules[n]|
        && c in r.namedTrafficMatches[k].httpServiceRouteRules[n][i].targetClusters
        ensures ClusterResolved(r.clustersConfigs, c)
      {
        var rules := otp.namedTrafficMatches[k].httpServiceRouteRules[n];
        var sorted := r.namedTrafficMatches[k].httpServiceRouteRules[n];
        ReorderedPermutes(otp, k, n);
        assert sorted[i] in multiset(rules);
        var j :| 0 <= j < |rules| && rules[j] == sorted[i];
      }
      forall k, c |
        k in r.namedTrafficMatches && r.namedTrafficMatches[k].tcpServiceRouteRules.Some?
        && c in r.namedTrafficMatches[k].tcpServiceRouteRules.value
        ensures ClusterResolved(r.clustersConfigs, c)
      {
        assert r.namedTrafficMatches[k].tcpServiceRouteRules == otp.namedTrafficMatches[k].tcpServiceRouteRules;
      }
    }
  }

  /** The loop over the rule lists of one match: each is sorted in place. */
  method SortMatchRules(otm: OutboundTrafficMatch) returns (r: OutboundTrafficMatch)
    ensures r == ReorderedMatch(otm)
  {
    var rules := otm.httpServiceRouteRules;
    var sortedRules := rules;
    var remaining := rules.Keys;
    while remaining != {}
      invariant remaining <= rules.Keys && sortedRules.Keys == rules.Keys
      invariant forall n :: n in remaining ==> sortedRules[n] == rules[n]
      invariant forall n :: n in rules && n !in remaining ==> sortedRules[n] == Sorting.InsSort(rules[n], RouteLess)
      decreases |remaining|
    {
      var n :| n in remaining;
      remaining := remaining - {n};
      var routeRules := SortRouteRules(rules[n]);
      sortedRules := sortedRules[n := routeRules];
    }
    r := otm.(httpServiceRouteRules := sortedRules);
  }

  /** Exactly the matches of the given port whose names are listed have been reordered. */
  predicate PortReordered(ntm: map<NamedPort, OutboundTrafficMatch>, ntm2: map<NamedPort, OutboundTrafficMatch>,
                          port: U16, names: seq<string>) {
    ntm2.Keys == ntm.Keys
    && forall k :: k in ntm ==> ntm2[k] == if k.port == port && k.name in names then ReorderedMatch(ntm[k]) else ntm[k]
  }

  /** Exactly the listed matches of the ports no longer remaining have been reordered. */
  ghost predicate PortsReordered(otp: OutboundTrafficPolicy, ntm2: map<NamedPort, OutboundTrafficMatch>, remaining: set<U16>) {
    ntm2.Keys == otp.namedTrafficMatches.Keys
    && forall k :: k in otp.namedTrafficMatches ==>
         ntm2[k] == if k.port !in remaining && k.name in PortNames(otp, k.port)
                    then ReorderedMatch(otp.namedTrafficMatches[k]) else otp.namedTrafficMatches[k]
  }

  /** The inner loop of reorder: the matches of one port, in list order. */
  method ReorderPort(ntm: map<NamedPort, OutboundTrafficMatch>, port: U16, names: seq<string>)
    returns (ntm2: map<NamedPort, OutboundTrafficMatch>)
    requires forall i :: 0 <= i < |names| ==> NamedPort(port, names[i]) in ntm
    requires forall i, j :: 0 <= i < j < |names| ==> names[i] != names[j]
    ensures PortReordered(ntm, ntm2, port, names)
  {
    ntm2 := ntm;
    for i := 0 to |names|
      invariant PortReordered(ntm, ntm2, port, names[..i])
    {
      var key := NamedPort(port, names[i]);
      assert names[i] !in names[..i];
      var trafficMatch := SortMatchRules(ntm2[key]);
      ntm2 := ntm2[key := trafficMatch];
      assert forall k: NamedPort :: k.name in names[..i + 1] <==> k.name in names[..i] || k.name == names[i];
    }
    assert names[..|names|] == names;
  }

  /** One port more of the outer loop. */
  lemma PortsReorderedStep(otp: OutboundTrafficPolicy, mid: map<NamedPort, OutboundTrafficMatch>,
                           ntm2: map<NamedPort, OutboundTrafficMatch>, remaining: set<U16>, port: U16)
    requires PortsReordered(otp, mid, remaining) && port in remaining
    requires PortReordered(mid, ntm2, port, PortNames(otp, port))
    ensures PortsReordered(otp, ntm2, remaining - {port})
  {
  }

  /** The outer loop of reorder: every port's list of matches, in any map order. */
  method ReorderPorts(otp: OutboundTrafficPolicy) returns (ntm2: map<NamedPort, OutboundTrafficMatch>)
    requires WellFormed(otp)
    ensures ntm2 == Reordered(otp).namedTrafficMatches
  {
    ntm2 := otp.namedTrafficMatches;
    var remaining := otp.trafficMatches.Keys;
    while remaining != {}
      invariant remaining <= otp.trafficMatches.Keys
      invariant PortsReordered(otp, ntm2, remaining)
      decreases |remaining|
    {
      var port :| port in remaining;
      var names := otp.trafficMatches[port];
      assert names == PortNames(otp, port);
      var ported := ReorderPort(ntm2, port, names);
      PortsReorderedStep(otp, ntm2, ported, remaining, port);
      remaining := remaining - {port};
      ntm2 := ported;
    }
    forall k | k in otp.namedTrafficMatches
      ensures k.name in PortNames(otp, k.port)
    {
    }
  }

  /**
   * reorder: when there is an outbound policy, every rule list of every listed match is
   * sorted and nothing else changes.
   */
  method Reorder(pipyConf: PipyConf)
    requires pipyConf.outbound.Some? ==> WellFormed(pipyConf.outbound.value)
    modifies pipyConf
    ensures old(pipyConf.outbound).None? ==> pipyConf.outbound.None?
    ensures old(pipyConf.outbound).Some? ==> pipyConf.outbound == Some(Reordered(old(pipyConf.outbound.value)))
    ensures pipyConf.Value().(outbound := old(pipyConf.outbound)) == old(pipyConf.Value())
  {
    if pipyConf.outbound.Some? {
      var otp := pipyConf.outbound.value;
      var ntm := ReorderPorts(otp);
      pipyConf.outbound := Some(otp.(namedTrafficMatches := ntm));
    }
  }

  // ---- publish ----

  type Nanosecond = n: nat | n < 1_000_000_000

  /** The calls made on the repository: derive a codebase, write a batch of files, delete a codebase. */
  datatype StoreCall =
    | DeriveCodebase(codebase: string, base: string, version: U64)
    | Batch(batchVersion: string, basepath: string, filename: string, content: seq<Byte>)
    | Delete(codebase: string)

  /**
   * Everything publishSidecarConf depends on beyond the document and the proxy:
   * serialization (compact, failing as None, and indented), the hash writer's failure and
   * the clock's nanoseconds for the hash fallback, the current time, the configured proxy
   * codebase and base repository, and the outcomes of the repository calls.
   */
  datatype PublishEnv = PublishEnv(marshal: PipyConfValue -> Option<seq<Byte>>,
                                   marshalIndent: PipyConfValue -> seq<Byte>,
                                   hashWriteFails: bool, nowNanosecond: Nanosecond, now: int,
                                   ecnetProxyCodebase: string, ecnetCodebaseRepo: string,
                                   deriveSuccess: bool, deriveFails: bool, batchFails: bool)

  const EcnetCodebaseConfig := "config.json"

  /** The outcome of one publication: the repository calls in order, the new ETag and the document as left. */
  datatype Publication = Publication(calls: seq<StoreCall>, etag: U64, doc: PipyConfValue)

  /** The document as it is hashed: without its timestamp and version. */
  function Cleared(doc: PipyConfValue): PipyConfValue {
    doc.(ts := None, version := None)
  }

  function ProxyCodebase(e: PublishEnv): string {
    e.ecnetProxyCodebase + "/proxy.bridge.ecnet"
  }

  /** The hash publishSidecarConf compares with the ETag: of the serialized document followed by the plugin-set version. */
  function DocHash(bytes: seq<Byte>, pluginSetV: seq<Byte>, e: PublishEnv): U64 {
    Fnv.Hash(bytes + pluginSetV, e.hashWriteFails, e.nowNanosecond) as int
  }

  /**
   * publishSidecarConf as a function of the proxy's ETag, the document, the plugin-set
   * version's bytes and the environment.
   */
  function Publish(etag: U64, doc: PipyConfValue, pluginSetV: seq<Byte>, e: PublishEnv): Publication {
    var cleared := Cleared(doc);
    match e.marshal(cleared)
    case None => Publication([], etag, cleared)
    case Some(bytes) =>
      var h := DocHash(bytes, pluginSetV, e);
      if h == etag then Publication([], etag, cleared) else Derive(etag, cleared, h, e)
  }

  /** The store calls on a changed hash h: derive the codebase, then write the stamped document. */
  function Derive(etag: U64, cleared: PipyConfValue, h: U64, e: PublishEnv): Publication {
    var proxyCodebase := ProxyCodebase(e);
    var derive := DeriveCodebase(proxyCodebase, e.ecnetCodebaseRepo, SubU64(h, 2));
    if e.deriveSuccess then
      var published := cleared.(ts := Some(e.now), version := Some(Itoa(h)));
      var batch := Batch(Itoa(SubU64(h, 1)), proxyCodebase, EcnetCodebaseConfig, e.marshalIndent(published));
      if e.batchFails then Publication([derive, batch, Delete(proxyCodebase)], etag, published)
      else Publication([derive, batch], h, published)
    else if e.deriveFails then Publication([derive, Delete(proxyCodebase)], etag, cleared)
    else Publication([derive], h, cleared)
  }

  /**
   * On a changed hash h, the first call derives the proxy codebase at version h-2. When
   * derivation succeeds, the second call writes config.json in a batch labelled h-1 holding
   * the document stamped with the time and version h. An error leads to a final Delete and
   * keeps the ETag; no error sets the ETag to h, even when derivation did not succeed and
   * nothing was written.
   */
  lemma PublishChanged(etag: U64, doc: PipyConfValue, pluginSetV: seq<Byte>, e: PublishEnv)
    requires e.marshal(Cleared(doc)).Some?
    requires DocHash(e.marshal(Cleared(doc)).value, pluginSetV, e) != etag
    ensures var h := DocHash(e.marshal(Cleared(doc)).value, pluginSetV, e);
      var p := Publish(etag, doc, pluginSetV, e);
      var err := if e.deriveSuccess then e.batchFails else e.deriveFails;
      |p.calls| >= 1 && p.calls[0] == DeriveCodebase(ProxyCodebase(e), e.ecnetCodebaseRepo, SubU64(h, 2))
      && (e.deriveSuccess ==>
            |p.calls| >= 2 && p.doc == Cleared(doc).(ts := Some(e.now), version := Some(Itoa(h)))
            && p.calls[1] == Batch(Itoa(SubU64(h, 1)), ProxyCodebase(e), EcnetCodebaseConfig, e.marshalIndent(p.doc)))
      && (!e.deriveSuccess ==> p.doc == Cleared(doc) && forall i :: 0 <= i < |p.calls| ==> !p.calls[i].Batch?)
      && (err <==> p.calls[|p.calls| - 1] == Delete(ProxyCodebase(e)))
      && (err ==> p.etag == etag)
      && (!err ==> p.etag == h)
  {
  }

  /**
   * No store call is made exactly when serialization fails or the hash equals the ETag;
   * the ETag then stays and the document is left with Ts and Version cleared.
   */
  lemma PublishUnchanged(etag: U64, doc: PipyConfValue, pluginSetV: seq<Byte>, e: PublishEnv)
    ensures var p := Publish(etag, doc, pluginSetV, e);
      p.calls == [] <==> e.marshal(Cleared(doc)).None? || DocHash(e.marshal(Cleared(doc)).value, pluginSetV, e) == etag
    ensures var p := Publish(etag, doc, pluginSetV, e);
      p.calls == [] ==> p.etag == etag && p.doc == Cleared(doc)
  {
  }

  /**
   * Publication settles: once a document was published (the ETag now holds its hash), the
   * same document published again, stamped or not, makes no call, because the timestamp
   * and version are cleared before hashing and FNV-1 is a function of the bytes.
   */
  lemma PublishSettles(etag: U64, doc: PipyConfValue, pluginSetV: seq<Byte>, e: PublishEnv, e2: PublishEnv)
    requires e.marshal(Cleared(doc)).Some? && !e.hashWriteFails
    requires Publish(etag, doc, pluginSetV, e).etag != etag
    requires e2.marshal == e.marshal && !e2.hashWriteFails
    ensures var p := Publish(etag, doc, pluginSetV, e);
      Publish(p.etag, p.doc, pluginSetV, e2).calls == [] && Publish(p.etag, p.doc, pluginSetV, e2).etag == p.etag
  {
    var p := Publish(etag, doc, pluginSetV, e);
    assert Cleared(p.doc) == Cleared(doc);
    var bytes := e.marshal(Cleared(doc)).value;
    assert DocHash(bytes, pluginSetV, e2) == DocHash(bytes, pluginSetV, e);
  }

  /** publishSidecarConf: Ts and Version are cleared, then the publication runs as Publish describes. */
  method PublishSidecarConf(proxy: Proxy, pipyConf: PipyConf, pluginSetV: seq<Byte>, e: PublishEnv) returns (calls: seq<StoreCall>)
    modifies proxy, pipyConf
    ensures var p := Publish(old(proxy.etag), old(pipyConf.Value()), pluginSetV, e);
      calls == p.calls && proxy.etag == p.etag && pipyConf.Value() == p.doc
  {
    calls := [];
    pipyConf.ts := None;
    pipyConf.version := None;
    var bytes := e.marshal(pipyConf.Value());
    if bytes.Some? {
      var codebasePreV := proxy.etag;
      var codebaseCurV := DocHash(bytes.value, pluginSetV, e);
      if codebaseCurV != codebasePreV {
        calls := DeriveAndWrite(proxy, pipyConf, codebaseCurV, e);
      }
    }
  }

  /** The part of publishSidecarConf that runs on a changed hash: the store calls and the new ETag. */
  method DeriveAndWrite(proxy: Proxy, pipyConf: PipyConf, codebaseCurV: U64, e: PublishEnv) returns (calls: seq<StoreCall>)
    modifies proxy, pipyConf
    ensures var p := Derive(old(proxy.etag), old(pipyConf.Value()), codebaseCurV, e);
      calls == p.calls && proxy.etag == p.etag && pipyConf.Value() == p.doc
  {
    var proxyCodebase := e.ecnetProxyCodebase + "/proxy.bridge.ecnet";
    var derive := DeriveCodebase(proxyCodebase, e.ecnetCodebaseRepo, SubU64(codebaseCurV, 2));
    calls := [derive];
    var success, err := e.deriveSuccess, e.deriveFails;
    if success {
      pipyConf.ts := Some(e.now);
      pipyConf.version := Some(Itoa(codebaseCurV));
      var content := e.marshalIndent(pipyConf.Value());
      calls := calls + [Batch(Itoa(SubU64(codebaseCurV, 1)), proxyCodebase, EcnetCodebaseConfig, content)];
      err := e.batchFails;
    }
    if err {
      calls := calls + [Delete(proxyCodebase)];
    } else {
      proxy.etag := codebaseCurV;
    }
  }

  // ---- the job ----

  /**
   * What one job run reads: the catalog kind and configurator, the outbound mesh policy
   * with pass 1's parameters and the upstream endpoints, whether the retry hook is set,
   * the load-balancer type names and the publication environment.
   */
  datatype JobEnv = JobEnv(isMeshCatalog: bool, cfg: Configurator.Client, policy: OutboundMeshTrafficPolicy,
                           compile: CompileEnv, upstream: MeshService -> seq<Endpoint>, hasRetry: bool,
                           lb: LbTypes, publish: PublishEnv)

  /**
   * The document a job builds before publishing: the configured features on a mesh
   * catalog, the configured chains, the resolvable services as DNS database, pass 1's
   * routes with every rule list reordered, and, when the outbound step is ready,
   * endpoints for every target cluster.
   */
  predicate Built(doc: PipyConfValue, e: JobEnv)
    requires ConfigsNamed(e.policy)
  {
    (!e.isMeshCatalog ==> doc.spec == MeshConfigSpec("", None))
    && (e.isMeshCatalog ==>
          doc.spec.sidecarLogLevel == Configurator.GetEcnetConfig(e.cfg).spec.sidecar.logLevel
          && DNSProxySet(doc.spec.localDNSProxy, Configurator.LocalDNSProxyEnabled(e.cfg),
                         Configurator.GetLocalDNSProxyPrimaryUpstream(e.cfg), Configurator.GetLocalDNSProxySecondaryUpstream(e.cfg)))
    && doc.chains == PipyPlugin.Chains(PipyPlugin.GlobalChains(e.cfg))
    && doc.dnsResolveDB == (if |e.policy.servicesResolvableSet| > 0 then e.policy.servicesResolvableSet else map[])
    && BuiltOutbound(doc.outbound, e)
  }

  /** The outbound part of a built document. */
  predicate BuiltOutbound(outbound: Option<OutboundTrafficPolicy>, e: JobEnv)
    requires ConfigsNamed(e.policy)
  {
    var compiled := CompiledFrom(EmptyOutboundTrafficPolicy, e.policy, e.compile).0;
    (e.policy.trafficMatches == [] <==> outbound.None?)
    && (outbound.Some? ==>
          outbound.value.namedTrafficMatches == Reordered(compiled).namedTrafficMatches
          && outbound.value.trafficMatches == compiled.trafficMatches
          && WellFormed(outbound.value)
          && (OutboundReady(EmptyOutboundTrafficPolicy, e.policy, e.compile, e.upstream) ==> TargetsResolved(outbound.value)))
  }

  /** balance then reorder: the outbound policy's clusters rebalanced and its rule lists reordered. */
  function PostProcessed(outbound: Option<OutboundTrafficPolicy>, lb: LbTypes): Option<OutboundTrafficPolicy> {
    if outbound.None? then None
    else Some(Reordered(outbound.value.(clustersConfigs := RebalancedClusters(outbound.value.clustersConfigs, lb))))
  }

  /** The balance and reorder steps of Run. */
  method BalanceAndReorder(pipyConf: PipyConf, lb: LbTypes)
    requires pipyConf.outbound.Some? ==> WellFormed(pipyConf.outbound.value)
    modifies pipyConf
    ensures pipyConf.outbound == PostProcessed(old(pipyConf.outbound), lb)
    ensures pipyConf.Value().(outbound := old(pipyConf.outbound)) == old(pipyConf.Value())
  {
    ghost var before := pipyConf.outbound;
    pipyConf.RebalancedOutboundClusters(lb);
    if before.Some? {
      RebalancedKeepsResolved(before.value, lb);
    }
    Reorder(pipyConf);
  }

  /**
   * Balancing and reordering keep pass 1's routes (reordered), the consistency of the two
   * views of the matches and every resolved target.
   */
  lemma PostProcessedKeeps(otp: OutboundTrafficPolicy, lb: LbTypes)
    ensures var r := PostProcessed(Some(otp), lb).value;
      r.namedTrafficMatches == Reordered(otp).namedTrafficMatches && r.trafficMatches == otp.trafficMatches
      && (WellFormed(otp) ==> WellFormed(r)) && (TargetsResolved(otp) ==> TargetsResolved(r))
  {
    RebalancedKeepsResolved(otp, lb);
    ReorderedKeepsInvariants(otp.(clustersConfigs := RebalancedClusters(otp.clustersConfigs, lb)));
  }

  /** What the outbound step establishes on a new document, carried through balance and reorder, is a built outbound policy. */
  lemma BuiltOutboundFrom(e: JobEnv, outbound: Option<OutboundTrafficPolicy>, ready: bool)
    requires ConfigsNamed(e.policy)
    requires e.policy.trafficMatches == [] ==> outbound.None?
    requires e.policy.trafficMatches != [] ==>
      var r := CompiledFrom(EmptyOutboundTrafficPolicy, e.policy, e.compile).0;
      outbound.Some? && outbound.value.(clustersConfigs := r.clustersConfigs) == r
    requires outbound.Some? ==> WellFormed(outbound.value)
    requires ready <==> OutboundReady(EmptyOutboundTrafficPolicy, e.policy, e.compile, e.upstream)
    requires ready && outbound.Some? ==> TargetsResolved(outbound.value)
    ensures BuiltOutbound(PostProcessed(outbound, e.lb), e)
  {
    if outbound.Some? {
      PostProcessedKeeps(outbound.value, e.lb);
      var r := CompiledFrom(EmptyOutboundTrafficPolicy, e.policy, e.compile).0;
      assert outbound.value.namedTrafficMatches == r.namedTrafficMatches;
    }
  }

  /** The steps of Run before publication, on a new document. */
  method BuildPipyConf(e: JobEnv) returns (pipyConf: PipyConf, retried: bool)
    requires ConfigsNamed(e.policy)
    ensures fresh(pipyConf)
    ensures Built(pipyConf.Value(), e)
    ensures retried <==> e.hasRetry && !OutboundReady(EmptyOutboundTrafficPolicy, e.policy, e.compile, e.upstream)
  {
    pipyConf := new PipyConf();
    Features(e.isMeshCatalog, e.cfg, pipyConf);
    var _ := Plugin(e.cfg, pipyConf);
    var ready;
    ready, retried := Outbound(pipyConf, e.policy, e.compile, e.upstream, e.hasRetry);
    BuiltOutboundFrom(e, pipyConf.outbound, ready);
    BalanceAndReorder(pipyConf, e.lb);
  }

  /**
   * Run: nothing for a missing proxy. Otherwise a new document goes through features,
   * plugin, outbound, balance and reorder and is then always published, ready or not; not
   * ready only calls the retry hook. The plugin-set version is empty, so the hashed bytes
   * are the serialized document alone.
   */
  method Run(proxy: Proxy?, e: JobEnv) returns (doc: PipyConfValue, calls: seq<StoreCall>, retried: bool)
    requires ConfigsNamed(e.policy)
    modifies proxy
    ensures proxy == null ==> calls == [] && !retried
    ensures proxy != null ==>
      var p := Publish(old(proxy.etag), doc, [], e.publish);
      Built(doc, e) && calls == p.calls && proxy.etag == p.etag
    ensures proxy != null ==> (retried <==> e.hasRetry && !OutboundReady(EmptyOutboundTrafficPolicy, e.policy, e.compile, e.upstream))
  {
    doc := PipyConfValue(None, None, MeshConfigSpec("", None), None, map[], map[]);
    calls, retried := [], false;
    if proxy == null {
      return;
    }
    var pipyConf;
    pipyConf, retried := BuildPipyConf(e);
    doc := pipyConf.Value();
    calls := PublishSidecarConf(proxy, pipyConf, [], e.publish);
  }

  /** Rebalancing rewrites weights only, so every cluster with endpoints keeps them. */
  lemma RebalancedKeepsResolved(otp: OutboundTrafficPolicy, lb: LbTypes)
    ensures WellFormed(otp) ==> WellFormed(otp.(clustersConfigs := RebalancedClusters(otp.clustersConfigs, lb)))
    ensures TargetsResolved(otp) ==> TargetsResolved(otp.(clustersConfigs := RebalancedClusters(otp.clustersConfigs, lb)))
  {
    var ccs := RebalancedClusters(otp.clustersConfigs, lb);
    var r := otp.(clustersConfigs := ccs);
    assert forall p :: PortNames(r, p) == PortNames(otp, p);
    forall c | ClusterResolved(otp.clustersConfigs, c)
      ensures ClusterResolved(ccs, c)
    {
      var eps := otp.clustersConfigs[c].endpoints.value;
      var some :| some in eps;
      assert some in Rebalanced(eps, lb);
    }
  }
}
