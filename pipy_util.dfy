/**
 * The configuration compiler's two passes (proxyserver/server/util.go). Pass 1 turns the
 * outbound mesh traffic policy into traffic matches and route rules and collects the
 * clusters the rules depend on; pass 2 fills in each depended-on cluster's endpoints and
 * reports whether every one of them could be resolved.
 *
 * Each pass is specified by a function built from one function per source loop; the
 * methods run the loops and are proved equal to those functions, and the invariants the
 * passes keep are proved about the functions.
 */
module PipyUtil {
  import opened Wrappers
  import opened Bytes
  import opened Strings
  import opened Seqs
  import opened Mesh
  import opened PipyPolicy
  import TrafficPolicy

  /** policy.TrafficMatch: one upstream port of the proxy's outbound traffic. */
  datatype TrafficMatch = TrafficMatch(name: string, destinationPort: int, destinationProtocol: string,
                                       weightedClusters: seq<WeightedCluster>)

  /** policy.OutboundTrafficPolicy as the compiler reads it: the HTTP routes of one host. */
  datatype RouteConfig = RouteConfig(name: string, hostnames: seq<string>, routes: seq<TrafficPolicy.RouteWeightedClusters>)

  /** policy.MeshClusterConfig: a cluster and the service it stands for. */
  datatype MeshClusterConfig = MeshClusterConfig(name: string, service: MeshService)

  /** policy.OutboundMeshTrafficPolicy, the catalog's input to the compiler. */
  datatype OutboundMeshTrafficPolicy = OutboundMeshTrafficPolicy(trafficMatches: seq<TrafficMatch>,
                                                                 httpRouteConfigsPerPort: map<int, seq<RouteConfig>>,
                                                                 clustersConfigs: seq<MeshClusterConfig>,
                                                                 servicesResolvableSet: map<string, seq<string>>)

  /** Every element of the set, each exactly once, in some order. */
  ghost predicate ListsEachOnce(f: set<WeightedCluster> -> seq<WeightedCluster>) {
    forall s :: |f(s)| == |s| && (forall c :: c in f(s) <==> c in s)
  }

  /** One listing of a set: some element first, then the rest. */
  ghost function SetToSeq(s: set<WeightedCluster>): (r: seq<WeightedCluster>)
    ensures |r| == |s| && (forall c :: c in r <==> c in s)
  {
    if s == {} then [] else var x :| x in s; [x] + SetToSeq(s - {x})
  }

  /**
   * The order in which a cluster set is iterated (mapset's Iter): every cluster exactly
   * once, in an order the set does not fix.
   */
  type Enumeration = f: set<WeightedCluster> -> seq<WeightedCluster> | ListsEachOnce(f) ghost witness SetToSeq

  /**
   * What pass 1 needs beyond the policy: the FQDN of a traffic match's upstream service
   * (trafficMatchToMeshSvc followed by FQDN) and the order in which a cluster set is
   * iterated. The FQDN is total here; in Go a malformed match name gives a nil service,
   * which the HTTP, gRPC and HTTPS branches then dereference.
   */
  datatype CompileEnv = CompileEnv(upstreamFQDN: TrafficMatch -> string,
                                   enumerate: Enumeration)

  /** The depend clusters: cluster name to the first WeightedCluster seen with that name. */
  type Depend = map<string, WeightedCluster>

  // ---- helpers that only compute ----

  /** matchType: Exact and Prefix are kept, anything else is Regex. */
  function MatchType(t: TrafficPolicy.PathMatchType): (r: URIMatchType)
    ensures t == TrafficPolicy.PathMatchExact <==> r == PathMatchExact
    ensures t == TrafficPolicy.PathMatchPrefix <==> r == PathMatchPrefix
  {
    match t
    case PathMatchExact => PathMatchExact
    case PathMatchPrefix => PathMatchPrefix
    case PathMatchRegex => PathMatchRegex
  }

  /**
   * arrayEqual: the lengths agree, every cluster of the list is in the set and every
   * cluster of the set is in the list (a cluster is its name and weight).
   */
  predicate ArrayEqual(a: seq<WeightedCluster>, b: set<WeightedCluster>) {
    |a| == |b| && (forall i :: 0 <= i < |a| ==> a[i] in b) && (forall c :: c in b ==> c in a)
  }

  /** The elements of a sequence, as a set. */
  function Elements<T>(s: seq<T>): set<T> {
    set x | x in s
  }

  predicate NoDuplicates<T(==)>(s: seq<T>) {
    forall i, j :: 0 <= i < j < |s| ==> s[i] != s[j]
  }

  /** A sequence has at least as many positions as elements, and as many exactly when it has no duplicates. */
  lemma {:induction false} ElementsCard<T>(s: seq<T>)
    ensures |Elements(s)| <= |s|
    ensures |Elements(s)| == |s| <==> NoDuplicates(s)
    decreases |s|
  {
    if s != [] {
      var init, x := s[..|s| - 1], s[|s| - 1];
      ElementsCard(init);
      assert Elements(s) == Elements(init) + {x};
      if x in init {
        assert Elements(s) == Elements(init);
        var i :| 0 <= i < |init| && init[i] == x;
        assert s[i] == s[|s| - 1];
      } else {
        assert NoDuplicates(s) <==> NoDuplicates(init);
      }
    }
  }

  /** arrayEqual holds exactly when the list has no repeated cluster and holds the set's clusters. */
  lemma ArrayEqualIsSetEquality(a: seq<WeightedCluster>, b: set<WeightedCluster>)
    ensures ArrayEqual(a, b) <==> NoDuplicates(a) && Elements(a) == b
  {
    ElementsCard(a);
    if ArrayEqual(a, b) {
      assert Elements(a) == b;
    }
  }

  /** The policy is for the upstream FQDN and one of its routes has exactly the match's clusters. */
  predicate ConfigSelected(c: RouteConfig, fqdn: string, weightedClusters: seq<WeightedCluster>) {
    c.name == fqdn && exists i :: 0 <= i < |c.routes| && ArrayEqual(weightedClusters, c.routes[i].weightedClusters)
  }

  /** The selected policies of a list, in list order. */
  function SelectConfigs(configs: seq<RouteConfig>, fqdn: string, weightedClusters: seq<WeightedCluster>): (r: seq<RouteConfig>)
    ensures multiset(r) <= multiset(configs)
    ensures forall c :: c in r <==> c in configs && ConfigSelected(c, fqdn, weightedClusters)
  {
    if configs == [] then []
    else
      var init := configs[..|configs| - 1];
      var c := configs[|configs| - 1];
      assert configs == init + [c];
      SelectConfigs(init, fqdn, weightedClusters) + (if ConfigSelected(c, fqdn, weightedClusters) then [c] else [])
  }

  /**
   * getOutboundHTTPRouteConfigs: the policies on the target port for the FQDN that have a
   * route with the match's clusters, in order, each policy at most once.
   */
  function GetOutboundHTTPRouteConfigs(perPort: map<int, seq<RouteConfig>>, targetPort: int, fqdn: string,
                                       weightedClusters: seq<WeightedCluster>): (r: seq<RouteConfig>)
    ensures targetPort !in perPort ==> r == []
    ensures targetPort in perPort ==> multiset(r) <= multiset(perPort[targetPort])
    ensures forall c :: c in r <==> targetPort in perPort && c in perPort[targetPort] && ConfigSelected(c, fqdn, weightedClusters)
  {
    if targetPort in perPort then SelectConfigs(perPort[targetPort], fqdn, weightedClusters) else []
  }

  predicate IsClusterSep(c: char) { c == '/' || c == '|' }

  datatype ClusterNameError = InvalidClusterName | InvalidClusterPort

  /**
   * clusterToMeshSvc: "<namespace>/<name>|<port>" split on '/' and '|' with empty pieces
   * dropped; exactly three pieces, the last a 16-bit decimal port.
   */
  function ClusterToMeshSvc(cluster: string): (r: Result<MeshService, ClusterNameError>)
    ensures r.Success? <==> |Fields(cluster, IsClusterSep)| == 3 && ParseUint(Fields(cluster, IsClusterSep)[2], 16).Success?
    ensures r.Success? ==> var chunks := Fields(cluster, IsClusterSep);
      r.value.namespace == chunks[0] && r.value.name == chunks[1] && r.value.targetPort == ParseUint(chunks[2], 16).value
      && r.value.port == 0 && r.value.protocol == "" && r.value.serviceImportUID == ""
  {
    var chunks := Fields(cluster, IsClusterSep);
    if |chunks| != 3 then Failure(InvalidClusterName)
    else match ParseUint(chunks[2], 16)
      case Failure(_) => Failure(InvalidClusterPort)
      case Success(port) =>
        Pow2Of16();
        Success(MeshService(chunks[0], chunks[1], 0, port, "", ""))
  }

  /** A cluster name written as "<namespace>/<name>|<port>" gives back its three parts. */
  lemma ClusterToMeshSvcRoundTrip(namespace: string, name: string, port: U16)
    requires namespace != [] && NoSep(namespace, IsClusterSep)
    requires name != [] && NoSep(name, IsClusterSep)
    ensures ClusterToMeshSvc(namespace + "/" + name + "|" + Itoa(port)) == Success(MeshService(namespace, name, 0, port, "", ""))
  {
    var digits := Itoa(port);
    ClusterNameFields(namespace, name, digits);
    Pow2Of16();
    ItoaParses(port, 16);
  }

  /** A name written as "<namespace>/<name>|<digits>" splits into its three parts. */
  lemma ClusterNameFields(namespace: string, name: string, digits: string)
    requires namespace != [] && NoSep(namespace, IsClusterSep)
    requires name != [] && NoSep(name, IsClusterSep)
    requires digits != [] && AllDigits(digits)
    ensures Fields(namespace + "/" + name + "|" + digits, IsClusterSep) == [namespace, name, digits]
  {
    var rest := name + ['|'] + digits;
    assert Fields(rest, IsClusterSep) == [name, digits] by {
      assert NoSep(digits, IsClusterSep) by {
        forall i | 0 <= i < |digits| ensures !IsClusterSep(digits[i]) {
          assert IsDigit(digits[i]);
        }
      }
      FieldsSingle(digits, IsClusterSep);
      FieldsCons(name, '|', digits, IsClusterSep);
    }
    FieldsCons(namespace, '/', rest, IsClusterSep);
    assert namespace + "/" + name + "|" + digits == namespace + ['/'] + rest;
  }

  function ClusterConfigIs(clusterName: string): MeshClusterConfig -> bool {
    (c: MeshClusterConfig) => c.name == clusterName
  }

  /** getMeshClusterConfigs: the first cluster configuration with the name. */
  function GetMeshClusterConfigs(configs: seq<MeshClusterConfig>, clusterName: string): (r: Option<MeshClusterConfig>)
    ensures r.Some? ==> r.value in configs && r.value.name == clusterName
    ensures r.None? <==> forall i :: 0 <= i < |configs| ==> configs[i].name != clusterName
  {
    match FirstIndex(configs, ClusterConfigIs(clusterName))
    case None => None
    case Some(i) => Some(configs[i])
  }

  /** getUpstreamEndpoints: the catalog's endpoints of the cluster's service, none for a malformed name. */
  function GetUpstreamEndpoints(upstream: MeshService -> seq<Endpoint>, clusterName: string): (r: seq<Endpoint>)
    ensures ClusterToMeshSvc(clusterName).Failure? ==> r == []
    ensures ClusterToMeshSvc(clusterName).Success? ==> r == upstream(ClusterToMeshSvc(clusterName).value)
  {
    match ClusterToMeshSvc(clusterName)
    case Success(svc) => upstream(svc)
    case Failure(_) => []
  }

  // ---- pass 1: invariants ----

  /** Nothing already recorded is lost or replaced. */
  predicate Grows(d: Depend, d2: Depend) {
    forall k :: k in d ==> k in d2 && d2[k] == d[k]
  }

  /** Every entry is recorded under its own cluster name. */
  predicate Keyed(d: Depend) {
    forall k :: k in d ==> d[k].clusterName == k
  }

  predicate ClustersIn(tc: map<string, U32>, d: Depend) {
    forall c :: c in tc ==> c in d
  }

  predicate RulesCovered(rules: seq<HTTPRouteRule>, d: Depend) {
    forall i :: 0 <= i < |rules| ==> ClustersIn(rules[i].targetClusters, d)
  }

  /** Every cluster a rule of the match targets, HTTP or TCP, is a depend cluster. */
  predicate MatchCovered(otm: OutboundTrafficMatch, d: Depend) {
    (forall n :: n in otm.httpServiceRouteRules ==> RulesCovered(otm.httpServiceRouteRules[n], d))
    && (otm.tcpServiceRouteRules.Some? ==> ClustersIn(otm.tcpServiceRouteRules.value, d))
  }

  predicate PolicyCovered(otp: OutboundTrafficPolicy, d: Depend) {
    forall k :: k in otp.namedTrafficMatches ==> MatchCovered(otp.namedTrafficMatches[k], d)
  }

  predicate MatchUnique(otm: OutboundTrafficMatch) {
    forall n :: n in otm.httpServiceRouteRules ==> UniqueMatchRules(otm.httpServiceRouteRules[n])
  }

  predicate PolicyUnique(otp: OutboundTrafficPolicy) {
    forall k :: k in otp.namedTrafficMatches ==> MatchUnique(otp.namedTrafficMatches[k])
  }

  lemma MatchCoveredGrows(otm: OutboundTrafficMatch, d: Depend, d2: Depend)
    requires MatchCovered(otm, d) && Grows(d, d2)
    ensures MatchCovered(otm, d2)
  {
    forall n | n in otm.httpServiceRouteRules
      ensures RulesCovered(otm.httpServiceRouteRules[n], d2)
    {
      var rules := otm.httpServiceRouteRules[n];
      assert forall i :: 0 <= i < |rules| ==> ClustersIn(rules[i].targetClusters, d);
    }
  }

  lemma PolicyCoveredGrows(otp: OutboundTrafficPolicy, d: Depend, d2: Depend)
    requires PolicyCovered(otp, d) && Grows(d, d2)
    ensures PolicyCovered(otp, d2)
  {
    forall k | k in otp.namedTrafficMatches
      ensures MatchCovered(otp.namedTrafficMatches[k], d2)
    {
      MatchCoveredGrows(otp.namedTrafficMatches[k], d, d2);
    }
  }

  // ---- pass 1: the loops as functions ----

  /** No cluster of the list carries the name. */
  predicate NameAbsent(wcs: seq<WeightedCluster>, k: string) {
    forall j :: 0 <= j < |wcs| ==> wcs[j].clusterName != k
  }

  /**
   * The loop over a list of clusters: each name enters the depend clusters the first time
   * it is seen, and each cluster is written into the target clusters with its weight
   * converted to uint32.
   */
  function AddClusters(d: Depend, tc: map<string, U32>, wcs: seq<WeightedCluster>): (r: (Depend, map<string, U32>))
    ensures Grows(d, r.0)
    ensures Keyed(d) ==> Keyed(r.0)
    ensures ClustersIn(tc, d) ==> ClustersIn(r.1, r.0)
    ensures forall c :: c in tc ==> c in r.1
    ensures forall i :: 0 <= i < |wcs| ==> wcs[i].clusterName in r.0 && wcs[i].clusterName in r.1
  {
    if wcs == [] then (d, tc)
    else
      var prev := AddClusters(d, tc, wcs[..|wcs| - 1]);
      var wc := wcs[|wcs| - 1];
      (if wc.clusterName in prev.0 then prev.0 else prev.0[wc.clusterName := wc],
       prev.1[wc.clusterName := ToU32(wc.weight)])
  }

  /** A name new to the depend clusters is bound to the first cluster of the list with that name. */
  lemma {:induction false} AddClustersFirstWins(d: Depend, tc: map<string, U32>, wcs: seq<WeightedCluster>, k: string)
    requires k !in d && k in AddClusters(d, tc, wcs).0
    ensures exists i :: 0 <= i < |wcs| && wcs[i] == AddClusters(d, tc, wcs).0[k] && NameAbsent(wcs[..i], k)
    decreases |wcs|
  {
    var init := wcs[..|wcs| - 1];
    var prev := AddClusters(d, tc, init);
    if k in prev.0 {
      AddClustersFirstWins(d, tc, init, k);
      var i :| 0 <= i < |init| && init[i] == prev.0[k] && NameAbsent(init[..i], k);
      assert wcs[..i] == init[..i];
    } else {
      assert NameAbsent(init, k);
      assert wcs[..|wcs| - 1] == init;
    }
  }

  /** A target cluster carries the weight, as a uint32, of the list's last cluster with its name. */
  lemma {:induction false} AddClustersLastWins(d: Depend, tc: map<string, U32>, wcs: seq<WeightedCluster>, i: nat)
    requires i < |wcs| && NameAbsent(wcs[i + 1..], wcs[i].clusterName)
    ensures AddClusters(d, tc, wcs).1[wcs[i].clusterName] == ToU32(wcs[i].weight)
    decreases |wcs|
  {
    if i < |wcs| - 1 {
      var init := wcs[..|wcs| - 1];
      assert wcs[|wcs| - 1] == wcs[i + 1..][|wcs| - 2 - i];
      assert init[i + 1..] == wcs[i + 1..][..|wcs| - 2 - i];
      AddClustersLastWins(d, tc, init, i);
    }
  }

  /** A target cluster the list does not name is left as it was. */
  lemma {:induction false} AddClustersUntouched(d: Depend, tc: map<string, U32>, wcs: seq<WeightedCluster>, k: string)
    requires NameAbsent(wcs, k)
    ensures k in AddClusters(d, tc, wcs).1 <==> k in tc
    ensures k in tc ==> AddClusters(d, tc, wcs).1[k] == tc[k]
    decreases |wcs|
  {
    if wcs != [] {
      assert wcs[|wcs| - 1].clusterName != k;
      AddClustersUntouched(d, tc, wcs[..|wcs| - 1], k);
    }
  }

  /** The compiled match of a route: defaults for an absent path and for absent methods. */
  function CompileMatch(m: TrafficPolicy.HTTPRouteMatch): (r: HTTPMatchRule)
    ensures r.path == if m.path == "" then RegexMatchAll else m.path
    ensures r.matchType == MatchType(m.pathMatchType)
    ensures r.headers == m.headers
    ensures r.allowedAnyMethod <==> m.methods == [] || WildcardHTTPMethod in m.methods
    ensures r.allowedAnyMethod ==> r.methods == []
    ensures !r.allowedAnyMethod ==> r.methods == m.methods
  {
    var base := HTTPMatchRule(if |m.path| == 0 then RegexMatchAll else m.path, MatchType(m.pathMatchType), m.headers, [], false);
    AddMethodMatchesResult(base, m.methods);
    if |m.methods| == 0 then AddMethodMatch(base, WildcardHTTPMethod) else AddMethodMatches(base, m.methods)
  }

  /** The route's rule holds the compiled match and targets every cluster of the route. */
  predicate RouteCompiled(rules: seq<HTTPRouteRule>, route: TrafficPolicy.RouteWeightedClusters) {
    exists i :: 0 <= i < |rules| && rules[i].matchRule == CompileMatch(route.httpRouteMatch)
      && (forall c :: c in route.weightedClusters ==> c.clusterName in rules[i].targetClusters)
  }

  /**
   * One route of an HTTP route config: find or append the rule for its compiled match and
   * add the route's clusters to it.
   */
  function AddRoute(rules: seq<HTTPRouteRule>, d: Depend, route: TrafficPolicy.RouteWeightedClusters,
                    enumerate: Enumeration): (r: (seq<HTTPRouteRule>, Depend))
    ensures Grows(d, r.1) && (Keyed(d) ==> Keyed(r.1))
    ensures RulesCovered(rules, d) ==> RulesCovered(r.0, r.1)
    ensures UniqueMatchRules(rules) ==> UniqueMatchRules(r.0)
    ensures |rules| <= |r.0| <= |rules| + 1
    ensures forall i :: 0 <= i < |rules| ==> r.0[i].matchRule == rules[i].matchRule
    ensures RouteCompiled(r.0, route)
  {
    var m := CompileMatch(route.httpRouteMatch);
    var found := NewHTTPServiceRouteRule(rules, m);
    assert UniqueMatchRules(rules) ==> UniqueMatchRules(found.0) by {
      if UniqueMatchRules(rules) { NewHTTPServiceRouteRuleKeepsUnique(rules, m); }
    }
    var rule := found.0[found.1];
    var wcs := enumerate(route.weightedClusters);
    var added := AddClusters(d, rule.targetClusters, wcs);
    var rules2 := found.0[found.1 := rule.(targetClusters := added.1)];
    assert forall c :: c in route.weightedClusters ==> c in wcs;
    assert forall c :: c in wcs ==> c.clusterName in rules2[found.1].targetClusters;
    assert RulesCovered(rules, d) ==> RulesCovered(rules2, added.0) by {
      if RulesCovered(rules, d) {
        forall i | 0 <= i < |rules2|
          ensures ClustersIn(rules2[i].targetClusters, added.0)
        {
          if i != found.1 {
            assert rules2[i] == rules[i];
          }
        }
      }
    }
    (rules2, added.0)
  }

  function AddRoutes(rules: seq<HTTPRouteRule>, d: Depend, routes: seq<TrafficPolicy.RouteWeightedClusters>,
                     enumerate: Enumeration): (r: (seq<HTTPRouteRule>, Depend))
    ensures Grows(d, r.1) && (Keyed(d) ==> Keyed(r.1))
    ensures RulesCovered(rules, d) ==> RulesCovered(r.0, r.1)
    ensures UniqueMatchRules(rules) ==> UniqueMatchRules(r.0)
  {
    if routes == [] then (rules, d)
    else
      var prev := AddRoutes(rules, d, routes[..|routes| - 1], enumerate);
      AddRoute(prev.0, prev.1, routes[|routes| - 1], enumerate)
  }

  /** The loop over a config's hostnames: each one points at the config's rule name. */
  function AddHostnames(h2s: map<string, string>, hostnames: seq<string>, ruleName: string): (r: map<string, string>)
    ensures forall h :: h in hostnames ==> h in r && r[h] == ruleName
    ensures forall h :: h in r <==> h in h2s || h in hostnames
    ensures forall h :: h in h2s && h !in hostnames ==> r[h] == h2s[h]
  {
    if hostnames == [] then h2s
    else AddHostnames(h2s, hostnames[..|hostnames| - 1], ruleName)[hostnames[|hostnames| - 1] := ruleName]
  }

  /**
   * A config the compiler can follow: for an empty name newHTTPServiceRouteRules returns a
   * nil rule list, and adding the config's first route would dereference it.
   */
  predicate NamedConfig(c: RouteConfig) {
    c.name != "" || c.routes == []
  }

  /** One HTTP route config: its rule list, its hostnames and its routes. */
  function AddRouteConfig(otm: OutboundTrafficMatch, d: Depend, config: RouteConfig,
                          enumerate: Enumeration): (r: (OutboundTrafficMatch, Depend))
    requires NamedConfig(config)
    ensures Grows(d, r.1) && (Keyed(d) ==> Keyed(r.1))
    ensures MatchCovered(otm, d) ==> MatchCovered(r.0, r.1)
    ensures MatchUnique(otm) ==> MatchUnique(r.0)
    ensures r.0.port == otm.port && r.0.protocol == otm.protocol && r.0.tcpServiceRouteRules == otm.tcpServiceRouteRules
    ensures forall h :: h in config.hostnames ==> h in r.0.httpHostPort2Service && r.0.httpHostPort2Service[h] == config.name
    ensures config.name != "" ==> config.name in r.0.httpServiceRouteRules
  {
    var otm1 := NewHTTPServiceRouteRules(otm, config.name);
    var otm2 := otm1.(httpHostPort2Service := AddHostnames(otm1.httpHostPort2Service, config.hostnames, config.name));
    if config.routes == [] then
      (otm2, d)
    else
      var routed := AddRoutes(otm2.httpServiceRouteRules[config.name], d, config.routes, enumerate);
      var otm3 := otm2.(httpServiceRouteRules := otm2.httpServiceRouteRules[config.name := routed.0]);
      assert MatchCovered(otm, d) ==> MatchCovered(otm3, routed.1) by {
        if MatchCovered(otm, d) {
          MatchCoveredGrows(otm2, d, routed.1);
        }
      }
      (otm3, routed.1)
  }

  function AddRouteConfigs(otm: OutboundTrafficMatch, d: Depend, configs: seq<RouteConfig>,
                           enumerate: Enumeration): (r: (OutboundTrafficMatch, Depend))
    requires forall i :: 0 <= i < |configs| ==> NamedConfig(configs[i])
    ensures Grows(d, r.1) && (Keyed(d) ==> Keyed(r.1))
    ensures MatchCovered(otm, d) ==> MatchCovered(r.0, r.1)
    ensures MatchUnique(otm) ==> MatchUnique(r.0)
    ensures r.0.port == otm.port && r.0.protocol == otm.protocol && r.0.tcpServiceRouteRules == otm.tcpServiceRouteRules
  {
    if configs == [] then (otm, d)
    else
      var prev := AddRouteConfigs(otm, d, configs[..|configs| - 1], enumerate);
      AddRouteConfig(prev.0, prev.1, configs[|configs| - 1], enumerate)
  }

  /** Every cluster of every route is a depend cluster and a target cluster. */
  predicate RoutesAdded(routes: seq<TrafficPolicy.RouteWeightedClusters>, d: Depend, tc: map<string, U32>) {
    forall j, c :: 0 <= j < |routes| && c in routes[j].weightedClusters ==> c.clusterName in d && c.clusterName in tc
  }

  /** The same for every route of every config. */
  predicate ConfigsAdded(configs: seq<RouteConfig>, d: Depend, tc: map<string, U32>) {
    forall i :: 0 <= i < |configs| ==> RoutesAdded(configs[i].routes, d, tc)
  }

  /** The clusters of every route of a config, in order (the HTTPS branch). */
  function AddRouteClusters(d: Depend, tc: map<string, U32>, routes: seq<TrafficPolicy.RouteWeightedClusters>,
                            enumerate: Enumeration): (r: (Depend, map<string, U32>))
    ensures Grows(d, r.0) && (Keyed(d) ==> Keyed(r.0))
    ensures ClustersIn(tc, d) ==> ClustersIn(r.1, r.0)
    ensures forall c :: c in tc ==> c in r.1
    ensures RoutesAdded(routes, r.0, r.1)
  {
    if routes == [] then (d, tc)
    else
      var prev := AddRouteClusters(d, tc, routes[..|routes| - 1], enumerate);
      var last := routes[|routes| - 1];
      var r := AddClusters(prev.0, prev.1, enumerate(last.weightedClusters));
      assert forall c :: c in last.weightedClusters ==> c in enumerate(last.weightedClusters);
      assert RoutesAdded(routes, r.0, r.1) by {
        forall j, c | 0 <= j < |routes| && c in routes[j].weightedClusters
          ensures c.clusterName in r.0 && c.clusterName in r.1
        {
          if j < |routes| - 1 {
            assert routes[..|routes| - 1][j] == routes[j];
          } else {
            var k :| 0 <= k < |enumerate(last.weightedClusters)| && enumerate(last.weightedClusters)[k] == c;
          }
        }
      }
      r
  }

  /** The clusters of every route of every selected config, in order (the HTTPS branch). */
  function AddConfigClusters(d: Depend, tc: map<string, U32>, configs: seq<RouteConfig>,
                             enumerate: Enumeration): (r: (Depend, map<string, U32>))
    ensures Grows(d, r.0) && (Keyed(d) ==> Keyed(r.0))
    ensures ClustersIn(tc, d) ==> ClustersIn(r.1, r.0)
    ensures forall c :: c in tc ==> c in r.1
    ensures ConfigsAdded(configs, r.0, r.1)
  {
    if configs == [] then (d, tc)
    else
      var prev := AddConfigClusters(d, tc, configs[..|configs| - 1], enumerate);
      var r := AddRouteClusters(prev.0, prev.1, configs[|configs| - 1].routes, enumerate);
      assert ConfigsAdded(configs, r.0, r.1) by {
        forall i | 0 <= i < |configs|
          ensures RoutesAdded(configs[i].routes, r.0, r.1)
        {
          if i < |configs| - 1 {
            assert configs[..|configs| - 1][i] == configs[i];
            assert RoutesAdded(configs[i].routes, prev.0, prev.1);
          }
        }
      }
      r
  }

  /** HTTP and gRPC share the bucket "http"; every other protocol uses the match's own name. */
  function BucketName(protocol: string, name: string): string {
    if protocol == ProtocolHTTP || protocol == ProtocolGRPC then ProtocolHTTP else name
  }

  /** The bucket a traffic match is compiled into: its port as a uint16 and its bucket name. */
  function MatchKey(tm: TrafficMatch): NamedPort {
    NamedPort(ToU16(tm.destinationPort), BucketName(ToLower(tm.destinationProtocol), tm.name))
  }

  /** The route configs of a match: those on its port (as a uint16) for its upstream FQDN. */
  function MatchConfigs(policy: OutboundMeshTrafficPolicy, env: CompileEnv, tm: TrafficMatch): seq<RouteConfig> {
    GetOutboundHTTPRouteConfigs(policy.httpRouteConfigsPerPort, ToU16(tm.destinationPort), env.upstreamFQDN(tm), tm.weightedClusters)
  }

  predicate ConfigsNamed(policy: OutboundMeshTrafficPolicy) {
    forall p, i :: p in policy.httpRouteConfigsPerPort && 0 <= i < |policy.httpRouteConfigsPerPort[p]| ==>
      NamedConfig(policy.httpRouteConfigsPerPort[p][i])
  }

  lemma MatchConfigsNamed(policy: OutboundMeshTrafficPolicy, env: CompileEnv, tm: TrafficMatch)
    requires ConfigsNamed(policy)
    ensures forall i :: 0 <= i < |MatchConfigs(policy, env, tm)| ==> NamedConfig(MatchConfigs(policy, env, tm)[i])
  {
    var configs := MatchConfigs(policy, env, tm);
    var port := ToU16(tm.destinationPort);
    forall i | 0 <= i < |configs|
      ensures NamedConfig(configs[i])
    {
      assert configs[i] in configs;
      var j :| 0 <= j < |policy.httpRouteConfigsPerPort[port]| && policy.httpRouteConfigsPerPort[port][j] == configs[i];
    }
  }

  /** The match's bucket after its protocol branch. */
  function CompileMatchRules(otm: OutboundTrafficMatch, d: Depend, protocol: string, configs: seq<RouteConfig>,
                             tm: TrafficMatch, enumerate: Enumeration): (r: (OutboundTrafficMatch, Depend))
    requires forall i :: 0 <= i < |configs| ==> NamedConfig(configs[i])
    ensures Grows(d, r.1) && (Keyed(d) ==> Keyed(r.1))
    ensures MatchCovered(otm, d) ==> MatchCovered(r.0, r.1)
    ensures MatchUnique(otm) ==> MatchUnique(r.0)
    ensures r.0.port == otm.port && r.0.protocol == otm.protocol
    ensures (protocol == ProtocolTCP || protocol == ProtocolTCPServerFirst) ==>
      forall i :: 0 <= i < |tm.weightedClusters| ==>
        r.0.tcpServiceRouteRules.Some? && tm.weightedClusters[i].clusterName in r.0.tcpServiceRouteRules.value
        && tm.weightedClusters[i].clusterName in r.1
    ensures protocol == ProtocolHTTPS && configs != [] ==>
      r.0.tcpServiceRouteRules.Some? && ConfigsAdded(configs, r.1, r.0.tcpServiceRouteRules.value)
    ensures (protocol == ProtocolHTTP || protocol == ProtocolGRPC || protocol == ProtocolHTTPS) && configs == [] ==> r == (otm, d)
  {
    if protocol == ProtocolHTTP || protocol == ProtocolGRPC then
      if configs == [] then (otm, d) else AddRouteConfigs(otm, d, configs, enumerate)
    else if protocol == ProtocolTCP || protocol == ProtocolTCPServerFirst then
      var otm1 := NewTCPServiceRouteRules(otm);
      var added := AddClusters(d, otm1.tcpServiceRouteRules.value, tm.weightedClusters);
      assert MatchCovered(otm, d) ==> MatchCovered(otm1.(tcpServiceRouteRules := Some(added.1)), added.0) by {
        if MatchCovered(otm, d) {
          MatchCoveredGrows(otm1, d, added.0);
        }
      }
      (otm1.(tcpServiceRouteRules := Some(added.1)), added.0)
    else if protocol == ProtocolHTTPS then
      if configs == [] then (otm, d)
      else
        var otm1 := NewTCPServiceRouteRules(otm);
        var added := AddConfigClusters(d, otm1.tcpServiceRouteRules.value, configs, enumerate);
        assert MatchCovered(otm, d) ==> MatchCovered(otm1.(tcpServiceRouteRules := Some(added.1)), added.0) by {
          if MatchCovered(otm, d) {
            MatchCoveredGrows(otm1, d, added.0);
          }
        }
        (otm1.(tcpServiceRouteRules := Some(added.1)), added.0)
    else (otm, d)
  }

  /** The match's bucket as newTrafficMatch leaves it: protocol and port are set only on creation. */
  function OpenedMatch(otp: OutboundTrafficPolicy, tm: TrafficMatch): OutboundTrafficMatch {
    var key := MatchKey(tm);
    if key in otp.namedTrafficMatches then otp.namedTrafficMatches[key]
    else SetProtocol(EmptyTrafficMatch, ToLower(tm.destinationProtocol)).(port := key.port)
  }

  /** One traffic match of pass 1: find or create its bucket, then compile its rules into it. */
  function CompileTrafficMatch(otp: OutboundTrafficPolicy, d: Depend, policy: OutboundMeshTrafficPolicy, env: CompileEnv,
                               tm: TrafficMatch): (r: (OutboundTrafficPolicy, Depend))
    requires ConfigsNamed(policy)
    ensures Grows(d, r.1) && (Keyed(d) ==> Keyed(r.1))
    ensures r.0.clustersConfigs == otp.clustersConfigs
    ensures r.0.trafficMatches == NewTrafficMatch(otp, MatchKey(tm).port, MatchKey(tm).name).0.trafficMatches
    ensures r.0.namedTrafficMatches.Keys == otp.namedTrafficMatches.Keys + {MatchKey(tm)}
    ensures forall k :: k in otp.namedTrafficMatches && k != MatchKey(tm) ==> r.0.namedTrafficMatches[k] == otp.namedTrafficMatches[k]
    ensures r.0.namedTrafficMatches[MatchKey(tm)].port == OpenedMatch(otp, tm).port
    ensures r.0.namedTrafficMatches[MatchKey(tm)].protocol == OpenedMatch(otp, tm).protocol
  {
    var key := MatchKey(tm);
    var created := NewTrafficMatch(otp, key.port, key.name);
    MatchConfigsNamed(policy, env, tm);
    var compiled := CompileMatchRules(OpenedMatch(otp, tm), d, ToLower(tm.destinationProtocol), MatchConfigs(policy, env, tm), tm, env.enumerate);
    (created.0.(namedTrafficMatches := created.0.namedTrafficMatches[key := compiled.0]), compiled.1)
  }

  /** A match's bucket keeps the protocol and port it was created with; a new one gets the normalized protocol. */
  lemma CompileTrafficMatchKeepsBucket(otp: OutboundTrafficPolicy, d: Depend, policy: OutboundMeshTrafficPolicy, env: CompileEnv,
                                       tm: TrafficMatch)
    requires ConfigsNamed(policy)
    ensures var r := CompileTrafficMatch(otp, d, policy, env, tm).0;
      forall k :: k in otp.namedTrafficMatches ==>
        r.namedTrafficMatches[k].port == otp.namedTrafficMatches[k].port
        && r.namedTrafficMatches[k].protocol == otp.namedTrafficMatches[k].protocol
    ensures var r := CompileTrafficMatch(otp, d, policy, env, tm).0;
      MatchKey(tm) !in otp.namedTrafficMatches ==>
        r.namedTrafficMatches[MatchKey(tm)].port == ToU16(tm.destinationPort)
        && r.namedTrafficMatches[MatchKey(tm)].protocol == SetProtocol(EmptyTrafficMatch, tm.destinationProtocol).protocol
  {
    ToLowerIdempotent(tm.destinationProtocol);
  }

  /** Compiling a match keeps the two views of the traffic matches consistent. */
  lemma CompileTrafficMatchWellFormed(otp: OutboundTrafficPolicy, d: Depend, policy: OutboundMeshTrafficPolicy, env: CompileEnv,
                                      tm: TrafficMatch)
    requires ConfigsNamed(policy) && WellFormed(otp)
    ensures WellFormed(CompileTrafficMatch(otp, d, policy, env, tm).0)
  {
    var key := MatchKey(tm);
    NewTrafficMatchAppendsOnce(otp, key.port, key.name);
    WellFormedFrame(NewTrafficMatch(otp, key.port, key.name).0, CompileTrafficMatch(otp, d, policy, env, tm).0);
  }

  /** Consistency of the two views depends only on the stored keys and the per-port lists. */
  lemma WellFormedFrame(a: OutboundTrafficPolicy, b: OutboundTrafficPolicy)
    requires WellFormed(a)
    requires a.namedTrafficMatches.Keys == b.namedTrafficMatches.Keys && a.trafficMatches == b.trafficMatches
    ensures WellFormed(b)
  {
    assert forall p :: PortNames(a, p) == PortNames(b, p);
  }

  /** Compiling a match keeps every targeted cluster a depend cluster and every rule list free of repeats. */
  lemma CompileTrafficMatchCovered(otp: OutboundTrafficPolicy, d: Depend, policy: OutboundMeshTrafficPolicy, env: CompileEnv,
                                   tm: TrafficMatch)
    requires ConfigsNamed(policy)
    ensures PolicyCovered(otp, d) ==> PolicyCovered(CompileTrafficMatch(otp, d, policy, env, tm).0, CompileTrafficMatch(otp, d, policy, env, tm).1)
    ensures PolicyUnique(otp) ==> PolicyUnique(CompileTrafficMatch(otp, d, policy, env, tm).0)
  {
    var r := CompileTrafficMatch(otp, d, policy, env, tm);
    var bucket := OpenedMatch(otp, tm);
    MatchConfigsNamed(policy, env, tm);
    var compiled := CompileMatchRules(bucket, d, ToLower(tm.destinationProtocol), MatchConfigs(policy, env, tm), tm, env.enumerate);
    assert r.0.namedTrafficMatches[MatchKey(tm)] == compiled.0 && r.1 == compiled.1;
    if PolicyCovered(otp, d) {
      assert MatchCovered(bucket, d);
      CoveredAfterUpdate(otp.namedTrafficMatches, r.0.namedTrafficMatches, MatchKey(tm), d, r.1);
    }
    if PolicyUnique(otp) {
      assert MatchUnique(bucket);
      UniqueAfterUpdate(otp.namedTrafficMatches, r.0.namedTrafficMatches, MatchKey(tm));
    }
  }

  /** Replacing or adding one covered bucket, with the depend clusters only growing, keeps the policy covered. */
  lemma CoveredAfterUpdate(ntm: map<NamedPort, OutboundTrafficMatch>, ntm2: map<NamedPort, OutboundTrafficMatch>, key: NamedPort,
                           d: Depend, d2: Depend)
    requires forall k :: k in ntm ==> MatchCovered(ntm[k], d)
    requires Grows(d, d2) && ntm2.Keys == ntm.Keys + {key} && MatchCovered(ntm2[key], d2)
    requires forall k :: k in ntm && k != key ==> ntm2[k] == ntm[k]
    ensures forall k :: k in ntm2 ==> MatchCovered(ntm2[k], d2)
  {
    forall k | k in ntm2 && k != key
      ensures MatchCovered(ntm2[k], d2)
    {
      MatchCoveredGrows(ntm[k], d, d2);
    }
  }

  /** Replacing or adding one bucket free of repeated matches keeps every bucket free of them. */
  lemma UniqueAfterUpdate(ntm: map<NamedPort, OutboundTrafficMatch>, ntm2: map<NamedPort, OutboundTrafficMatch>, key: NamedPort)
    requires forall k :: k in ntm ==> MatchUnique(ntm[k])
    requires ntm2.Keys == ntm.Keys + {key} && MatchUnique(ntm2[key])
    requires forall k :: k in ntm && k != key ==> ntm2[k] == ntm[k]
    ensures forall k :: k in ntm2 ==> MatchUnique(ntm2[k])
  {
  }

  /** Pass 1 over a list of traffic matches, in order. */
  function CompileTrafficMatches(otp: OutboundTrafficPolicy, d: Depend, policy: OutboundMeshTrafficPolicy, env: CompileEnv,
                                 tms: seq<TrafficMatch>): (r: (OutboundTrafficPolicy, Depend))
    requires ConfigsNamed(policy)
    ensures Grows(d, r.1) && (Keyed(d) ==> Keyed(r.1))
    ensures r.0.clustersConfigs == otp.clustersConfigs
    ensures forall i :: 0 <= i < |tms| ==> MatchKey(tms[i]) in r.0.namedTrafficMatches
  {
    if tms == [] then (otp, d)
    else
      var prev := CompileTrafficMatches(otp, d, policy, env, tms[..|tms| - 1]);
      var r := CompileTrafficMatch(prev.0, prev.1, policy, env, tms[|tms| - 1]);
      MatchKeysKept(tms[..|tms| - 1], tms, prev.0.namedTrafficMatches.Keys, r.0.namedTrafficMatches.Keys);
      GrowsTransitive(d, prev.1, r.1);
      r
  }

  /** A key set that grows by the last match's key holds the keys of all matches once it held those before it. */
  lemma MatchKeysKept(init: seq<TrafficMatch>, tms: seq<TrafficMatch>, before: set<NamedPort>, after: set<NamedPort>)
    requires tms != [] && init == tms[..|tms| - 1] && after == before + {MatchKey(tms[|tms| - 1])}
    requires forall i :: 0 <= i < |init| ==> MatchKey(init[i]) in before
    ensures forall i :: 0 <= i < |tms| ==> MatchKey(tms[i]) in after
  {
    forall i | 0 <= i < |tms| - 1
      ensures MatchKey(tms[i]) in after
    {
      assert init[i] == tms[i];
    }
  }

  lemma GrowsTransitive(d1: Depend, d2: Depend, d3: Depend)
    requires Grows(d1, d2) && Grows(d2, d3)
    ensures Grows(d1, d3)
  {
  }

  /**
   * Pass 1 keeps its invariants: every cluster a compiled rule targets is a depend cluster,
   * the two traffic-match views agree and no rule list holds two equal matches.
   */
  lemma {:induction false} CompileTrafficMatchesInvariants(otp: OutboundTrafficPolicy, d: Depend, policy: OutboundMeshTrafficPolicy,
                                                           env: CompileEnv, tms: seq<TrafficMatch>)
    requires ConfigsNamed(policy)
    requires PolicyCovered(otp, d) && WellFormed(otp) && PolicyUnique(otp)
    ensures var r := CompileTrafficMatches(otp, d, policy, env, tms);
      PolicyCovered(r.0, r.1) && WellFormed(r.0) && PolicyUnique(r.0)
    decreases |tms|
  {
    if tms != [] {
      var prev := CompileTrafficMatches(otp, d, policy, env, tms[..|tms| - 1]);
      CompileTrafficMatchesInvariants(otp, d, policy, env, tms[..|tms| - 1]);
      CompileTrafficMatchWellFormed(prev.0, prev.1, policy, env, tms[|tms| - 1]);
      CompileTrafficMatchCovered(prev.0, prev.1, policy, env, tms[|tms| - 1]);
    }
  }

  /** From an empty start, pass 1's result satisfies its invariants and every depend cluster is keyed by its name. */
  lemma CompiledPolicyInvariants(policy: OutboundMeshTrafficPolicy, env: CompileEnv)
    requires ConfigsNamed(policy)
    ensures var r := CompileTrafficMatches(EmptyOutboundTrafficPolicy, map[], policy, env, policy.trafficMatches);
      PolicyCovered(r.0, r.1) && Keyed(r.1) && WellFormed(r.0) && PolicyUnique(r.0)
  {
    CompileTrafficMatchesInvariants(EmptyOutboundTrafficPolicy, map[], policy, env, policy.trafficMatches);
  }

  // ---- pass 1: the loops ----

  /** The loop over a list of clusters that fills the depend clusters and one rule's target clusters. */
  method CollectClusters(d: Depend, tc: map<string, U32>, wcs: seq<WeightedCluster>) returns (d2: Depend, tc2: map<string, U32>)
    ensures (d2, tc2) == AddClusters(d, tc, wcs)
  {
    d2, tc2 := d, tc;
    for i := 0 to |wcs|
      invariant (d2, tc2) == AddClusters(d, tc, wcs[..i])
    {
      assert wcs[..i + 1][..i] == wcs[..i];
      var wc := wcs[i];
      if wc.clusterName !in d2 {
        d2 := d2[wc.clusterName := wc];
      }
      tc2 := tc2[wc.clusterName := ToU32(wc.weight)];
    }
    assert wcs[..|wcs|] == wcs;
  }

  /** The loop over the routes of one HTTP route config, filling its rule list. */
  method CompileRoutes(rules: seq<HTTPRouteRule>, d: Depend, routes: seq<TrafficPolicy.RouteWeightedClusters>,
                       enumerate: Enumeration) returns (rules2: seq<HTTPRouteRule>, d2: Depend)
    ensures (rules2, d2) == AddRoutes(rules, d, routes, enumerate)
  {
    rules2, d2 := rules, d;
    for i := 0 to |routes|
      invariant (rules2, d2) == AddRoutes(rules, d, routes[..i], enumerate)
    {
      assert routes[..i + 1][..i] == routes[..i];
      var route := routes[i];
      var found := NewHTTPServiceRouteRule(rules2, CompileMatch(route.httpRouteMatch));
      var rule := found.0[found.1];
      var targets;
      d2, targets := CollectClusters(d2, rule.targetClusters, enumerate(route.weightedClusters));
      rules2 := found.0[found.1 := rule.(targetClusters := targets)];
    }
    assert routes[..|routes|] == routes;
  }

  /** The loop over the hostnames of one HTTP route config. */
  method MapHostnames(h2s: map<string, string>, hostnames: seq<string>, ruleName: string) returns (r: map<string, string>)
    ensures r == AddHostnames(h2s, hostnames, ruleName)
  {
    r := h2s;
    for i := 0 to |hostnames|
      invariant r == AddHostnames(h2s, hostnames[..i], ruleName)
    {
      assert hostnames[..i + 1][..i] == hostnames[..i];
      r := r[hostnames[i] := ruleName];
    }
    assert hostnames[..|hostnames|] == hostnames;
  }

  /** The loop over the selected HTTP route configs of an HTTP or gRPC match. */
  method CompileRouteConfigs(otm: OutboundTrafficMatch, d: Depend, configs: seq<RouteConfig>,
                             enumerate: Enumeration) returns (otm2: OutboundTrafficMatch, d2: Depend)
    requires forall i :: 0 <= i < |configs| ==> NamedConfig(configs[i])
    ensures (otm2, d2) == AddRouteConfigs(otm, d, configs, enumerate)
  {
    otm2, d2 := otm, d;
    for i := 0 to |configs|
      invariant (otm2, d2) == AddRouteConfigs(otm, d, configs[..i], enumerate)
    {
      assert configs[..i + 1][..i] == configs[..i];
      var config := configs[i];
      otm2 := NewHTTPServiceRouteRules(otm2, config.name);
      var h2s := MapHostnames(otm2.httpHostPort2Service, config.hostnames, config.name);
      otm2 := otm2.(httpHostPort2Service := h2s);
      if config.routes != [] {
        var rules;
        rules, d2 := CompileRoutes(otm2.httpServiceRouteRules[config.name], d2, config.routes, enumerate);
        otm2 := otm2.(httpServiceRouteRules := otm2.httpServiceRouteRules[config.name := rules]);
      }
    }
    assert configs[..|configs|] == configs;
  }

  /** The nested loops of the HTTPS branch: every cluster of every route of every selected config. */
  method CollectConfigClusters(d: Depend, tc: map<string, U32>, configs: seq<RouteConfig>,
                               enumerate: Enumeration) returns (d2: Depend, tc2: map<string, U32>)
    ensures (d2, tc2) == AddConfigClusters(d, tc, configs, enumerate)
  {
    d2, tc2 := d, tc;
    for i := 0 to |configs|
      invariant (d2, tc2) == AddConfigClusters(d, tc, configs[..i], enumerate)
    {
      assert configs[..i + 1][..i] == configs[..i];
      var routes := configs[i].routes;
      var d0, tc0 := d2, tc2;
      for j := 0 to |routes|
        invariant (d2, tc2) == AddRouteClusters(d0, tc0, routes[..j], enumerate)
      {
        assert routes[..j + 1][..j] == routes[..j];
        d2, tc2 := CollectClusters(d2, tc2, enumerate(routes[j].weightedClusters));
      }
      assert routes[..|routes|] == routes;
    }
    assert configs[..|configs|] == configs;
  }

  /** The protocol branches of the traffic-match loop of pass 1. */
  method CompileBucket(otm: OutboundTrafficMatch, d: Depend, protocol: string, configs: seq<RouteConfig>,
                       tm: TrafficMatch, enumerate: Enumeration) returns (otm2: OutboundTrafficMatch, d2: Depend)
    requires forall i :: 0 <= i < |configs| ==> NamedConfig(configs[i])
    ensures (otm2, d2) == CompileMatchRules(otm, d, protocol, configs, tm, enumerate)
  {
    otm2, d2 := otm, d;
    if protocol == ProtocolHTTP || protocol == ProtocolGRPC {
      if configs != [] {
        otm2, d2 := CompileRouteConfigs(otm, d, configs, enumerate);
      }
    } else if protocol == ProtocolTCP || protocol == ProtocolTCPServerFirst {
      otm2 := NewTCPServiceRouteRules(otm);
      var tc;
      d2, tc := CollectClusters(d, otm2.tcpServiceRouteRules.value, tm.weightedClusters);
      otm2 := otm2.(tcpServiceRouteRules := Some(tc));
    } else if protocol == ProtocolHTTPS {
      if configs != [] {
        otm2 := NewTCPServiceRouteRules(otm);
        var tc;
        d2, tc := CollectConfigClusters(d, otm2.tcpServiceRouteRules.value, configs, enumerate);
        otm2 := otm2.(tcpServiceRouteRules := Some(tc));
      }
    }
  }

  /** The body of the traffic-match loop of pass 1. */
  method CompileOneTrafficMatch(otp: OutboundTrafficPolicy, d: Depend, policy: OutboundMeshTrafficPolicy, env: CompileEnv,
                                tm: TrafficMatch) returns (otp2: OutboundTrafficPolicy, d2: Depend)
    requires ConfigsNamed(policy)
    ensures (otp2, d2) == CompileTrafficMatch(otp, d, policy, env, tm)
  {
    var destinationProtocol := ToLower(tm.destinationProtocol);
    var trafficMatchName := tm.name;
    if destinationProtocol == ProtocolHTTP || destinationProtocol == ProtocolGRPC {
      trafficMatchName := ProtocolHTTP;
    }
    var port := ToU16(tm.destinationPort);
    var key := NamedPort(port, trafficMatchName);
    assert key == MatchKey(tm);
    var created := NewTrafficMatch(otp, port, trafficMatchName);
    var otm := created.0.namedTrafficMatches[key];
    if !created.1 {
      otm := SetProtocol(otm, destinationProtocol).(port := port);
    }
    assert otm == OpenedMatch(otp, tm);
    MatchConfigsNamed(policy, env, tm);
    otm, d2 := CompileBucket(otm, d, destinationProtocol, MatchConfigs(policy, env, tm), tm, env.enumerate);
    otp2 := created.0.(namedTrafficMatches := created.0.namedTrafficMatches[key := otm]);
  }

  /** The traffic-match loop of pass 1, from the given policy and no depend clusters. */
  method CompileAllTrafficMatches(start: OutboundTrafficPolicy, policy: OutboundMeshTrafficPolicy, env: CompileEnv)
    returns (otp: OutboundTrafficPolicy, d: Depend)
    requires ConfigsNamed(policy)
    ensures (otp, d) == CompileTrafficMatches(start, map[], policy, env, policy.trafficMatches)
  {
    otp, d := start, map[];
    var tms := policy.trafficMatches;
    for i := 0 to |tms|
      invariant (otp, d) == CompileTrafficMatches(start, map[], policy, env, tms[..i])
    {
      assert tms[..i + 1][..i] == tms[..i];
      otp, d := CompileOneTrafficMatch(otp, d, policy, env, tms[i]);
    }
    assert tms[..|tms|] == tms;
  }

  /**
   * generatePipyOutboundTrafficRoutePolicy: nothing when the policy has no traffic matches;
   * otherwise the document's outbound policy is allocated and every match is compiled into
   * it, and the depend clusters are returned.
   */
  method GeneratePipyOutboundTrafficRoutePolicy(conf: PipyConf, policy: OutboundMeshTrafficPolicy, env: CompileEnv)
    returns (depend: Option<Depend>)
    requires ConfigsNamed(policy)
    modifies conf
    ensures policy.trafficMatches == [] ==> depend.None? && conf.Value() == old(conf.Value())
    ensures policy.trafficMatches != [] ==>
      var start := if old(conf.outbound).Some? then old(conf.outbound.value) else EmptyOutboundTrafficPolicy;
      var r := CompileTrafficMatches(start, map[], policy, env, policy.trafficMatches);
      depend == Some(r.1) && conf.outbound == Some(r.0)
    ensures conf.Value().(outbound := old(conf.outbound)) == old(conf.Value())
  {
    if |policy.trafficMatches| == 0 {
      return None;
    }
    conf.NewOutboundTrafficPolicy();
    var otp, d := CompileAllTrafficMatches(conf.outbound.value, policy, env);
    conf.outbound := Some(otp);
    depend := Some(d);
  }

  // ---- pass 2: endpoints ----

  /** The port an endpoint is reached on: the service's target port for an endpoint with a cluster key when that port is set, else the service port. */
  function ServicePort(mcc: MeshClusterConfig, ep: Endpoint): U16 {
    if |ep.clusterKey| > 0 && mcc.service.targetPort > 0 then mcc.service.targetPort else mcc.service.port
  }

  /** The endpoint loop of one cluster: each upstream endpoint is stored under its "host:port" key. */
  function AddEndpoints(cc: ClusterConfigs, mcc: MeshClusterConfig, eps: seq<Endpoint>): (r: ClusterConfigs)
    ensures eps == [] ==> r == cc
    ensures eps != [] ==> r.endpoints.Some?
  {
    if eps == [] then cc
    else
      var ep := eps[|eps| - 1];
      AddWeightedZoneEndpoint(AddEndpoints(cc, mcc, eps[..|eps| - 1]), ep.ip, ServicePort(mcc, ep), ep.weight, ep.clusterKey, ep.lbType, ep.path)
  }

  /** The key of an endpoint: its address, with the port it is reached on unless the address carries one. */
  function KeyOf(mcc: MeshClusterConfig, ep: Endpoint): string {
    EndpointKey(ep.ip, ServicePort(mcc, ep))
  }

  /** Every upstream endpoint has an entry under its key. */
  lemma {:induction false} AddEndpointsStores(cc: ClusterConfigs, mcc: MeshClusterConfig, eps: seq<Endpoint>, i: nat)
    requires i < |eps|
    ensures KeyOf(mcc, eps[i]) in AddEndpoints(cc, mcc, eps).endpoints.value
    decreases |eps|
  {
    if i < |eps| - 1 {
      var init := eps[..|eps| - 1];
      AddEndpointsStores(cc, mcc, init, i);
      assert init[i] == eps[i];
    }
  }

  /** An endpoint stored later wins over an earlier one with the same key. */
  lemma {:induction false} AddEndpointsLastWins(cc: ClusterConfigs, mcc: MeshClusterConfig, eps: seq<Endpoint>, i: nat)
    requires i < |eps|
    requires forall j :: i < j < |eps| ==> KeyOf(mcc, eps[j]) != KeyOf(mcc, eps[i])
    ensures KeyOf(mcc, eps[i]) in AddEndpoints(cc, mcc, eps).endpoints.value
      && AddEndpoints(cc, mcc, eps).endpoints.value[KeyOf(mcc, eps[i])]
         == WeightedZoneEndpoint(eps[i].weight, eps[i].clusterKey, eps[i].lbType, eps[i].path)
    decreases |eps|
  {
    if i < |eps| - 1 {
      var init := eps[..|eps| - 1];
      assert forall j :: i < j < |init| ==> init[j] == eps[j];
      AddEndpointsLastWins(cc, mcc, init, i);
    }
  }

  /**
   * One depend cluster of pass 2: no entry without a cluster configuration; otherwise the
   * entry (created without endpoints when absent) with the upstream endpoints added.
   */
  function BalanceCluster(ccs: map<string, ClusterConfigs>, policy: OutboundMeshTrafficPolicy,
                          upstream: MeshService -> seq<Endpoint>, name: string): Option<ClusterConfigs>
  {
    match GetMeshClusterConfigs(policy.clustersConfigs, name)
    case None => None
    case Some(mcc) =>
      var base := if name in ccs then ccs[name] else ClusterConfigs(None);
      Some(AddEndpoints(base, mcc, GetUpstreamEndpoints(upstream, name)))
  }

  /**
   * r is ccs after balancing the names in done: a name with a cluster configuration has its
   * balanced entry, every other entry is as it was.
   */
  ghost predicate BalancedFrom(ccs: map<string, ClusterConfigs>, r: map<string, ClusterConfigs>, policy: OutboundMeshTrafficPolicy,
                         upstream: MeshService -> seq<Endpoint>, done: set<string>) {
    (forall n :: n in r <==> n in ccs || (n in done && BalanceCluster(ccs, policy, upstream, n).Some?))
    && (forall n :: n in r ==>
          r[n] == if n in done && BalanceCluster(ccs, policy, upstream, n).Some? then BalanceCluster(ccs, policy, upstream, n).value else ccs[n])
  }

  /** r is m with the entries f gives for the keys in done, where it gives one. */
  ghost predicate UpdatedFrom(m: map<string, ClusterConfigs>, r: map<string, ClusterConfigs>, f: string -> Option<ClusterConfigs>, done: set<string>) {
    (forall n :: n in r <==> n in m || (n in done && f(n).Some?))
    && (forall n :: n in r ==> r[n] == if n in done && f(n).Some? then f(n).value else m[n])
  }

  /** A depend cluster is ready when it has a cluster configuration and upstream endpoints. */
  predicate ClusterReady(policy: OutboundMeshTrafficPolicy, upstream: MeshService -> seq<Endpoint>, name: string) {
    GetMeshClusterConfigs(policy.clustersConfigs, name).Some? && GetUpstreamEndpoints(upstream, name) != []
  }

  /** The cluster has an entry with at least one endpoint. */
  predicate ClusterResolved(ccs: map<string, ClusterConfigs>, name: string) {
    name in ccs && ccs[name].endpoints.Some? && ccs[name].endpoints.value != map[]
  }

  /**
   * When pass 2 reports ready, every depend cluster (and so, by pass 1's coverage, every
   * cluster a compiled rule targets) has an entry with endpoints.
   */
  lemma ReadyClustersResolved(ccs: map<string, ClusterConfigs>, r: map<string, ClusterConfigs>, policy: OutboundMeshTrafficPolicy,
                              upstream: MeshService -> seq<Endpoint>, names: set<string>)
    requires BalancedFrom(ccs, r, policy, upstream, names)
    requires forall n :: n in names ==> ClusterReady(policy, upstream, n)
    ensures forall n :: n in names ==> ClusterResolved(r, n)
  {
    forall n | n in names
      ensures ClusterResolved(r, n)
    {
      var eps := GetUpstreamEndpoints(upstream, n);
      var mcc := GetMeshClusterConfigs(policy.clustersConfigs, n).value;
      assert n in r && r[n] == BalanceCluster(ccs, policy, upstream, n).value;
      AddEndpointsStores(if n in ccs then ccs[n] else ClusterConfigs(None), mcc, eps, 0);
      assert KeyOf(mcc, eps[0]) in r[n].endpoints.value;
    }
  }

  /** Pass 1 and pass 2 together: when ready, every cluster a compiled rule targets has endpoints. */
  lemma ReadyTargetsResolved(otp: OutboundTrafficPolicy, d: Depend, ccs: map<string, ClusterConfigs>, r: map<string, ClusterConfigs>,
                             policy: OutboundMeshTrafficPolicy, upstream: MeshService -> seq<Endpoint>)
    requires PolicyCovered(otp, d)
    requires BalancedFrom(ccs, r, policy, upstream, d.Keys)
    requires forall n :: n in d ==> ClusterReady(policy, upstream, n)
    ensures forall k, n, i, c ::
      (k in otp.namedTrafficMatches && n in otp.namedTrafficMatches[k].httpServiceRouteRules
       && 0 <= i < |otp.namedTrafficMatches[k].httpServiceRouteRules[n]|
       && c in otp.namedTrafficMatches[k].httpServiceRouteRules[n][i].targetClusters)
      ==> ClusterResolved(r, c)
    ensures forall k, c ::
      (k in otp.namedTrafficMatches && otp.namedTrafficMatches[k].tcpServiceRouteRules.Some?
       && c in otp.namedTrafficMatches[k].tcpServiceRouteRules.value)
      ==> ClusterResolved(r, c)
  {
    ReadyClustersResolved(ccs, r, policy, upstream, d.Keys);
    forall k, n, i, c | k in otp.namedTrafficMatches && n in otp.namedTrafficMatches[k].httpServiceRouteRules
      && 0 <= i < |otp.namedTrafficMatches[k].httpServiceRouteRules[n]|
      && c in otp.namedTrafficMatches[k].httpServiceRouteRules[n][i].targetClusters
      ensures ClusterResolved(r, c)
    {
      CoveredHTTPTarget(otp.namedTrafficMatches[k], d, n, i, c);
    }
    forall k, c | k in otp.namedTrafficMatches && otp.namedTrafficMatches[k].tcpServiceRouteRules.Some?
      && c in otp.namedTrafficMatches[k].tcpServiceRouteRules.value
      ensures ClusterResolved(r, c)
    {
      assert MatchCovered(otp.namedTrafficMatches[k], d);
    }
  }

  lemma CoveredHTTPTarget(otm: OutboundTrafficMatch, d: Depend, n: string, i: nat, c: string)
    requires MatchCovered(otm, d) && n in otm.httpServiceRouteRules && i < |otm.httpServiceRouteRules[n]|
    requires c in otm.httpServiceRouteRules[n][i].targetClusters
    ensures c in d
  {
    assert RulesCovered(otm.httpServiceRouteRules[n], d);
  }

  /** The endpoint loop of one cluster. */
  method StoreEndpoints(cc: ClusterConfigs, mcc: MeshClusterConfig, eps: seq<Endpoint>) returns (r: ClusterConfigs)
    ensures r == AddEndpoints(cc, mcc, eps)
  {
    r := cc;
    for i := 0 to |eps|
      invariant r == AddEndpoints(cc, mcc, eps[..i])
    {
      assert eps[..i + 1][..i] == eps[..i];
      var ep := eps[i];
      var address := ep.ip;
      var port := mcc.service.port;
      if |ep.clusterKey| > 0 {
        var targetPort := mcc.service.targetPort;
        if targetPort > 0 {
          port := targetPort;
        }
      }
      r := AddWeightedZoneEndpoint(r, address, port, ep.weight, ep.clusterKey, ep.lbType, ep.path);
    }
    assert eps[..|eps|] == eps;
  }

  /** The body of the depend-cluster loop of pass 2: one cluster's entry, and whether it is ready. */
  method BalanceOne(r: map<string, ClusterConfigs>, policy: OutboundMeshTrafficPolicy,
                    upstream: MeshService -> seq<Endpoint>, name: string) returns (ok: bool, r2: map<string, ClusterConfigs>)
    ensures ok <==> ClusterReady(policy, upstream, name)
    ensures r2 == if BalanceCluster(r, policy, upstream, name).Some? then r[name := BalanceCluster(r, policy, upstream, name).value] else r
  {
    var clusterConfig := GetMeshClusterConfigs(policy.clustersConfigs, name);
    if clusterConfig.None? {
      return false, r;
    }
    var clusterConfigs := if name in r then r[name] else ClusterConfigs(None);
    r2 := r[name := clusterConfigs];
    var upstreamEndpoints := GetUpstreamEndpoints(upstream, name);
    if |upstreamEndpoints| == 0 {
      assert AddEndpoints(clusterConfigs, clusterConfig.value, upstreamEndpoints) == clusterConfigs;
      return false, r2;
    }
    ghost var before := r2;
    clusterConfigs := StoreEndpoints(clusterConfigs, clusterConfig.value, upstreamEndpoints);
    r2 := r2[name := clusterConfigs];
    OverwriteTwice(r, name, before[name], clusterConfigs);
    ok := true;
  }

  lemma OverwriteTwice<K, V>(m: map<K, V>, k: K, v1: V, v2: V)
    ensures m[k := v1][k := v2] == m[k := v2]
  {
  }

  /** A name's balanced entry depends only on that name's current entry. */
  lemma BalanceClusterLocal(ccs: map<string, ClusterConfigs>, r: map<string, ClusterConfigs>, policy: OutboundMeshTrafficPolicy,
                            upstream: MeshService -> seq<Endpoint>, name: string)
    requires name in r <==> name in ccs
    requires name in r ==> r[name] == ccs[name]
    ensures BalanceCluster(r, policy, upstream, name) == BalanceCluster(ccs, policy, upstream, name)
  {
  }

  /** Updating one more key from a state that has not touched it. */
  lemma UpdatedFromStep(m: map<string, ClusterConfigs>, r: map<string, ClusterConfigs>, f: string -> Option<ClusterConfigs>, done: set<string>, name: string)
    requires UpdatedFrom(m, r, f, done) && name !in done
    ensures UpdatedFrom(m, if f(name).Some? then r[name := f(name).value] else r, f, done + {name})
  {
  }

  /** One turn of the depend-cluster loop, on the entries balanced so far. */
  method BalanceNext(ccs: map<string, ClusterConfigs>, r: map<string, ClusterConfigs>, ready: bool, policy: OutboundMeshTrafficPolicy,
                     upstream: MeshService -> seq<Endpoint>, name: string, ghost f: string -> Option<ClusterConfigs>, ghost done: set<string>)
    returns (ready2: bool, r2: map<string, ClusterConfigs>)
    requires forall n :: f(n) == BalanceCluster(ccs, policy, upstream, n)
    requires UpdatedFrom(ccs, r, f, done) && name !in done
    requires ready <==> AllReady(policy, upstream, done)
    ensures ready2 <==> AllReady(policy, upstream, done + {name})
    ensures UpdatedFrom(ccs, r2, f, done + {name})
  {
    var ok;
    ok, r2 := BalanceOne(r, policy, upstream, name);
    ready2 := ready && ok;
    AllReadyStep(policy, upstream, done, name);
    BalanceClusterLocal(ccs, r, policy, upstream, name);
    UpdatedFromStep(ccs, r, f, done, name);
  }

  /** The depend-cluster loop of pass 2 over the clusters map. */
  method BalanceClusters(ccs: map<string, ClusterConfigs>, policy: OutboundMeshTrafficPolicy,
                         upstream: MeshService -> seq<Endpoint>, depend: Depend) returns (ready: bool, r: map<string, ClusterConfigs>)
    requires Keyed(depend)
    ensures ready <==> AllReady(policy, upstream, depend.Keys)
    ensures BalancedFrom(ccs, r, policy, upstream, depend.Keys)
  {
    ready := true;
    r := ccs;
    var remaining := depend.Keys;
    ghost var done: set<string> := {};
    ghost var f: string -> Option<ClusterConfigs> := n => BalanceCluster(ccs, policy, upstream, n);
    while remaining != {}
      invariant remaining <= depend.Keys && done == depend.Keys - remaining
      invariant UpdatedFrom(ccs, r, f, done)
      invariant ready <==> AllReady(policy, upstream, done)
      decreases |remaining|
    {
      var k :| k in remaining;
      var name := depend[k].clusterName;
      assert name == k && name !in done;
      remaining := remaining - {k};
      ready, r := BalanceNext(ccs, r, ready, policy, upstream, name, f, done);
      done := done + {name};
      assert done == depend.Keys - remaining;
    }
    assert done == depend.Keys;
    UpdatedFromBalanced(ccs, r, policy, upstream, f, done);
  }

  lemma UpdatedFromBalanced(ccs: map<string, ClusterConfigs>, r: map<string, ClusterConfigs>, policy: OutboundMeshTrafficPolicy,
                            upstream: MeshService -> seq<Endpoint>, f: string -> Option<ClusterConfigs>, done: set<string>)
    requires forall n :: f(n) == BalanceCluster(ccs, policy, upstream, n)
    requires UpdatedFrom(ccs, r, f, done)
    ensures BalancedFrom(ccs, r, policy, upstream, done)
  {
  }

  /** Every name in names has a cluster configuration and upstream endpoints. */
  predicate AllReady(policy: OutboundMeshTrafficPolicy, upstream: MeshService -> seq<Endpoint>, names: set<string>) {
    forall n :: n in names ==> ClusterReady(policy, upstream, n)
  }

  lemma AllReadyStep(policy: OutboundMeshTrafficPolicy, upstream: MeshService -> seq<Endpoint>, names: set<string>, name: string)
    ensures AllReady(policy, upstream, names + {name}) <==> AllReady(policy, upstream, names) && ClusterReady(policy, upstream, name)
  {
  }

  /**
   * generatePipyOutboundTrafficBalancePolicy: the outbound policy is allocated if needed, every
   * depend cluster is balanced, and the result is ready exactly when every depend cluster has
   * a cluster configuration and upstream endpoints. Nothing else in the document changes.
   */
  method GeneratePipyOutboundTrafficBalancePolicy(conf: PipyConf, policy: OutboundMeshTrafficPolicy,
                                                  upstream: MeshService -> seq<Endpoint>, depend: Depend) returns (ready: bool)
    requires Keyed(depend)
    modifies conf
    ensures ready <==> forall n :: n in depend ==> ClusterReady(policy, upstream, n)
    ensures var start := if old(conf.outbound).Some? then old(conf.outbound.value) else EmptyOutboundTrafficPolicy;
      conf.outbound.Some? && conf.outbound.value.(clustersConfigs := start.clustersConfigs) == start
      && BalancedFrom(start.clustersConfigs, conf.outbound.value.clustersConfigs, policy, upstream, depend.Keys)
    ensures conf.Value().(outbound := old(conf.outbound)) == old(conf.Value())
  {
    conf.NewOutboundTrafficPolicy();
    var otp := conf.outbound.value;
    var ccs;
    ready, ccs := BalanceClusters(otp.clustersConfigs, policy, upstream, depend);
    conf.outbound := Some(otp.(clustersConfigs := ccs));
  }
}
