/**
 * The proxy configuration document (proxyserver/server/types.go) and its builders
 * (proxyserver/server/policy.go). The nested Go structs reached through pointers are
 * values here, each builder a function from the old value to the new one; the document
 * itself, which the job pipeline fills in step by step, is the class PipyConf.
 *
 * Go's OutboundTrafficPolicy keeps every traffic match twice, in namedTrafficMatches under
 * "<port>=<name>" and in TrafficMatches[port] as the same pointer. Here a match is stored
 * once, under the pair (port, name), and TrafficMatches lists the names per port in the
 * order the matches were created; NamedPortKeyInjective shows the pair and the string key
 * identify a match equally well.
 */
module PipyPolicy {
  import opened Wrappers
  import opened Bytes
  import opened Strings
  import opened Seqs
  import Sorting
  import TrafficPolicy
  import Mesh

  const RegexMatchAll := ".*"
  const WildcardHTTPMethod := "*"
  const ClusterWeightAcceptAll: U32 := 100
  const ClusterWeightFailOver: U32 := 0

  datatype URIMatchType = PathMatchRegex | PathMatchExact | PathMatchPrefix

  /** A compiled HTTP match; allowedAnyMethod is the unexported flag that DeepEqual also compares. */
  datatype HTTPMatchRule = HTTPMatchRule(path: string, matchType: URIMatchType, headers: map<string, string>,
                                         methods: seq<string>, allowedAnyMethod: bool)

  /** An HTTP route rule: the match and its weighted target clusters. */
  datatype HTTPRouteRule = HTTPRouteRule(matchRule: HTTPMatchRule, targetClusters: map<string, U32>)

  /**
   * One traffic match of the outbound policy. The TCP route rules are a pointer in Go, so
   * "not allocated" (None) and "allocated and empty" differ.
   */
  datatype OutboundTrafficMatch = OutboundTrafficMatch(port: U16, protocol: string,
                                                       httpHostPort2Service: map<string, string>,
                                                       httpServiceRouteRules: map<string, seq<HTTPRouteRule>>,
                                                       tcpServiceRouteRules: Option<map<string, U32>>)

  const EmptyTrafficMatch := OutboundTrafficMatch(0, "", map[], map[], None)

  /** An upstream endpoint of a cluster; lbType is not serialized. */
  datatype WeightedZoneEndpoint = WeightedZoneEndpoint(weight: U32, cluster: string, lbType: string, contextPath: string)

  /** The endpoints of one cluster, keyed by "host:port"; None until the first endpoint is added. */
  datatype ClusterConfigs = ClusterConfigs(endpoints: Option<map<string, WeightedZoneEndpoint>>)

  datatype NamedPort = NamedPort(port: U16, name: string)

  /**
   * The outbound traffic policy: the matches by (port, name), the match names per port in
   * creation order, and the cluster configurations by cluster name.
   */
  datatype OutboundTrafficPolicy = OutboundTrafficPolicy(namedTrafficMatches: map<NamedPort, OutboundTrafficMatch>,
                                                         trafficMatches: map<U16, seq<string>>,
                                                         clustersConfigs: map<string, ClusterConfigs>)

  const EmptyOutboundTrafficPolicy := OutboundTrafficPolicy(map[], map[], map[])

  datatype UpstreamDNSServers = UpstreamDNSServers(primary: Option<string>, secondary: Option<string>)
  datatype LocalDNSProxy = LocalDNSProxy(upstreamDNSServers: Option<UpstreamDNSServers>)
  datatype MeshConfigSpec = MeshConfigSpec(sidecarLogLevel: string, localDNSProxy: Option<LocalDNSProxy>)

  /** The two multicluster load-balancer type names the rebalancing compares against. */
  datatype LbTypes = LbTypes(failOver: string, activeActive: string)

  // ---- traffic matches ----

  /** The map key Go uses for a traffic match: fmt's "%d=%s". */
  function NamedPortKey(port: U16, name: string): string {
    Itoa(port) + "=" + name
  }

  /** The digits end at the first '=', so the string key determines both the port and the name. */
  lemma NamedPortKeyInjective(p1: U16, n1: string, p2: U16, n2: string)
    requires NamedPortKey(p1, n1) == NamedPortKey(p2, n2)
    ensures p1 == p2 && n1 == n2
  {
    var a, b := Itoa(p1), Itoa(p2);
    var k := NamedPortKey(p1, n1);
    assert k[|a|] == '=' && k[|b|] == '=';
    assert forall i :: 0 <= i < |a| ==> k[i] == a[i];
    assert forall i :: 0 <= i < |b| ==> k[i] == b[i];
    assert |a| == |b|;
    assert a == k[..|a|] == b;
    ItoaInjective(p1, p2);
    assert n1 == k[|a| + 1..] == n2;
  }

  /** The match names recorded for a port, none when the port has no entry. */
  function PortNames(otp: OutboundTrafficPolicy, port: U16): seq<string> {
    if port in otp.trafficMatches then otp.trafficMatches[port] else []
  }

  /**
   * Every stored match is listed once under its port, and every listed name has a stored
   * match: the two Go maps hold the same matches.
   */
  predicate WellFormed(otp: OutboundTrafficPolicy) {
    (forall k :: k in otp.namedTrafficMatches ==> k.name in PortNames(otp, k.port))
    && (forall port, i :: 0 <= i < |PortNames(otp, port)| ==> NamedPort(port, PortNames(otp, port)[i]) in otp.namedTrafficMatches)
    && (forall port, i, j :: 0 <= i < j < |PortNames(otp, port)| ==> PortNames(otp, port)[i] != PortNames(otp, port)[j])
  }

  /**
   * newTrafficMatch: the existing match for (port, name) with exists = true, or a new empty
   * match stored under the pair and appended to the port's list, with exists = false.
   */
  function NewTrafficMatch(otp: OutboundTrafficPolicy, port: U16, name: string): (r: (OutboundTrafficPolicy, bool))
    ensures NamedPort(port, name) in r.0.namedTrafficMatches
    ensures r.1 <==> NamedPort(port, name) in otp.namedTrafficMatches
    ensures r.1 ==> r.0 == otp
    ensures !r.1 ==> r.0.namedTrafficMatches[NamedPort(port, name)] == EmptyTrafficMatch
    ensures forall k :: k in otp.namedTrafficMatches ==> k in r.0.namedTrafficMatches && r.0.namedTrafficMatches[k] == otp.namedTrafficMatches[k]
    ensures r.0.clustersConfigs == otp.clustersConfigs
  {
    var key := NamedPort(port, name);
    if key in otp.namedTrafficMatches then (otp, true)
    else
      (otp.(namedTrafficMatches := otp.namedTrafficMatches[key := EmptyTrafficMatch],
            trafficMatches := otp.trafficMatches[port := PortNames(otp, port) + [name]]), false)
  }

  /**
   * A new match is appended exactly once to its port's list and no other list changes; a
   * repeated call changes nothing. Either way the two views stay consistent.
   */
  lemma NewTrafficMatchAppendsOnce(otp: OutboundTrafficPolicy, port: U16, name: string)
    requires WellFormed(otp)
    ensures WellFormed(NewTrafficMatch(otp, port, name).0)
    ensures !NewTrafficMatch(otp, port, name).1 ==> PortNames(NewTrafficMatch(otp, port, name).0, port) == PortNames(otp, port) + [name]
    ensures forall p :: p != port ==> PortNames(NewTrafficMatch(otp, port, name).0, p) == PortNames(otp, p)
  {
    var r := NewTrafficMatch(otp, port, name).0;
    if !NewTrafficMatch(otp, port, name).1 {
      assert name !in PortNames(otp, port);
      assert PortNames(r, port) == PortNames(otp, port) + [name];
      assert forall p :: p != port ==> PortNames(r, p) == PortNames(otp, p);
      assert forall k :: k in r.namedTrafficMatches ==> k.name in PortNames(r, k.port) by {
        forall k | k in r.namedTrafficMatches
          ensures k.name in PortNames(r, k.port)
        {
          if k != NamedPort(port, name) {
            assert k.name in PortNames(otp, k.port);
          } else {
            assert PortNames(r, port)[|PortNames(otp, port)|] == name;
          }
        }
      }
    }
  }

  /** setProtocol: the protocol lower-cased, with "tcp-server-first" stored as "tcp". */
  function SetProtocol(otm: OutboundTrafficMatch, protocol: string): (r: OutboundTrafficMatch)
    ensures r.(protocol := otm.protocol) == otm
    ensures ToLower(protocol) == Mesh.ProtocolTCPServerFirst ==> r.protocol == Mesh.ProtocolTCP
    ensures ToLower(protocol) != Mesh.ProtocolTCPServerFirst ==> r.protocol == ToLower(protocol)
  {
    var lowered := ToLower(protocol);
    if Mesh.ProtocolTCPServerFirst == lowered then otm.(protocol := Mesh.ProtocolTCP)
    else otm.(protocol := lowered)
  }

  /** The stored protocol is lower case and never "tcp-server-first". */
  lemma SetProtocolNormalizes(otm: OutboundTrafficMatch, protocol: string)
    ensures ToLower(SetProtocol(otm, protocol).protocol) == SetProtocol(otm, protocol).protocol
    ensures SetProtocol(otm, protocol).protocol != Mesh.ProtocolTCPServerFirst
  {
    ToLowerIdempotent(protocol);
    assert ToLower(Mesh.ProtocolTCP) == Mesh.ProtocolTCP;
  }

  /** newTCPServiceRouteRules: allocate the TCP rules once; existing ones are kept. */
  function NewTCPServiceRouteRules(otm: OutboundTrafficMatch): (r: OutboundTrafficMatch)
    ensures r.tcpServiceRouteRules.Some?
    ensures otm.tcpServiceRouteRules.Some? ==> r == otm
    ensures r.(tcpServiceRouteRules := otm.tcpServiceRouteRules) == otm
    ensures otm.tcpServiceRouteRules.None? ==> r.tcpServiceRouteRules == Some(map[])
  {
    if otm.tcpServiceRouteRules.None? then otm.(tcpServiceRouteRules := Some(map[])) else otm
  }

  /**
   * newHTTPServiceRouteRules: the rule list for a non-empty name, created empty when absent
   * (an empty name gives no list, and the caller would dereference nil).
   */
  function NewHTTPServiceRouteRules(otm: OutboundTrafficMatch, ruleName: string): (r: OutboundTrafficMatch)
    ensures r.(httpServiceRouteRules := otm.httpServiceRouteRules) == otm
    ensures ruleName != "" ==> ruleName in r.httpServiceRouteRules
    ensures forall n :: n in otm.httpServiceRouteRules ==> n in r.httpServiceRouteRules && r.httpServiceRouteRules[n] == otm.httpServiceRouteRules[n]
    ensures forall n :: n in r.httpServiceRouteRules && n !in otm.httpServiceRouteRules ==> n == ruleName && r.httpServiceRouteRules[n] == []
  {
    if ruleName == "" || ruleName in otm.httpServiceRouteRules then otm
    else otm.(httpServiceRouteRules := otm.httpServiceRouteRules[ruleName := []])
  }

  // ---- HTTP route rules ----

  function MatchRuleIs(m: HTTPMatchRule): HTTPRouteRule -> bool {
    (rule: HTTPRouteRule) => rule.matchRule == m
  }

  /**
   * newHTTPServiceRouteRule: the first rule whose match equals m, reported as a duplicate,
   * or a new rule with no clusters appended at the end.
   */
  function NewHTTPServiceRouteRule(rules: seq<HTTPRouteRule>, m: HTTPMatchRule): (r: (seq<HTTPRouteRule>, nat, bool))
    ensures r.1 < |r.0| && r.0[r.1].matchRule == m
    ensures r.2 <==> exists i :: 0 <= i < |rules| && rules[i].matchRule == m
    ensures r.2 ==> r.0 == rules && forall j :: 0 <= j < r.1 ==> rules[j].matchRule != m
    ensures !r.2 ==> r.0 == rules + [HTTPRouteRule(m, map[])] && r.1 == |rules|
  {
    match FirstIndex(rules, MatchRuleIs(m))
    case Some(i) => (rules, i, true)
    case None => (rules + [HTTPRouteRule(m, map[])], |rules|, false)
  }

  /** No two rules of a list have equal matches. */
  predicate UniqueMatchRules(rules: seq<HTTPRouteRule>) {
    forall i, j :: 0 <= i < j < |rules| ==> rules[i].matchRule != rules[j].matchRule
  }

  /** Deduplication keeps the matches of a rule list pairwise different. */
  lemma NewHTTPServiceRouteRuleKeepsUnique(rules: seq<HTTPRouteRule>, m: HTTPMatchRule)
    requires UniqueMatchRules(rules)
    ensures UniqueMatchRules(NewHTTPServiceRouteRule(rules, m).0)
  {
  }

  /** addMethodMatch: nothing once any method is allowed; "*" clears the list for good; else append. */
  function AddMethodMatch(hmr: HTTPMatchRule, httpMethod: string): (r: HTTPMatchRule)
    ensures r.path == hmr.path && r.matchType == hmr.matchType && r.headers == hmr.headers
    ensures hmr.allowedAnyMethod ==> r == hmr
    ensures r.allowedAnyMethod <==> hmr.allowedAnyMethod || httpMethod == WildcardHTTPMethod
    ensures r.allowedAnyMethod ==> r.methods == hmr.methods || r.methods == []
  {
    if hmr.allowedAnyMethod then hmr
    else if httpMethod == WildcardHTTPMethod then hmr.(allowedAnyMethod := true, methods := [])
    else hmr.(methods := hmr.methods + [httpMethod])
  }

  /** The addMethodMatch calls for a list of methods, in order. */
  function AddMethodMatches(hmr: HTTPMatchRule, methods: seq<string>): HTTPMatchRule {
    if methods == [] then hmr else AddMethodMatch(AddMethodMatches(hmr, methods[..|methods| - 1]), methods[|methods| - 1])
  }

  /**
   * Before any "*" the methods are appended in call order; once "*" is among them the list
   * is empty and every method is allowed.
   */
  lemma {:induction false} AddMethodMatchesResult(hmr: HTTPMatchRule, methods: seq<string>)
    requires !hmr.allowedAnyMethod
    ensures WildcardHTTPMethod in methods ==> AddMethodMatches(hmr, methods) == hmr.(allowedAnyMethod := true, methods := [])
    ensures WildcardHTTPMethod !in methods ==> AddMethodMatches(hmr, methods) == hmr.(methods := hmr.methods + methods)
    decreases |methods|
  {
    if methods != [] {
      var init := methods[..|methods| - 1];
      AddMethodMatchesResult(hmr, init);
      assert methods == init + [methods[|methods| - 1]];
      assert hmr.methods + init + [methods[|methods| - 1]] == hmr.methods + methods;
    }
  }

  /** The loop over a route's methods. */
  method AddMethods(hmr: HTTPMatchRule, methods: seq<string>) returns (r: HTTPMatchRule)
    ensures r == AddMethodMatches(hmr, methods)
  {
    r := hmr;
    for i := 0 to |methods|
      invariant r == AddMethodMatches(hmr, methods[..i])
    {
      assert methods[..i + 1][..i] == methods[..i];
      r := AddMethodMatch(r, methods[i]);
    }
    assert methods[..|methods|] == methods;
  }

  // ---- cluster endpoints ----

  /** The number of decimal digits at the end of s. */
  function TrailingDigits(s: string): (n: nat)
    ensures n <= |s|
    ensures AllDigits(s[|s| - n..])
    ensures n < |s| ==> !IsDigit(s[|s| - n - 1])
  {
    if s == [] || !IsDigit(s[|s| - 1]) then 0
    else
      var init := s[..|s| - 1];
      var n := TrailingDigits(init);
      DigitsThenDigit(init[|init| - n..], s[|s| - 1]);
      assert s[|s| - (n + 1)..] == init[|init| - n..] + [s[|s| - 1]];
      assert n < |init| ==> s[|s| - (n + 1) - 1] == init[|init| - n - 1];
      n + 1
  }

  lemma DigitsThenDigit(digits: string, c: char)
    requires AllDigits(digits) && IsDigit(c)
    ensures AllDigits(digits + [c])
  {
    forall i | 0 <= i < |digits| + 1
      ensures IsDigit((digits + [c])[i])
    {
      if i < |digits| {
        assert (digits + [c])[i] == digits[i];
      }
    }
  }

  /** The regular expression `:\d+$`: the text ends with a colon and at least one digit. */
  predicate HasPortSuffix(address: string) {
    var n := TrailingDigits(address);
    0 < n < |address| && address[|address| - n - 1] == ':'
  }

  /** HasPortSuffix is exactly "some ':' is followed by nothing but digits, at least one". */
  lemma HasPortSuffixIff(address: string)
    ensures HasPortSuffix(address) <==>
      exists i :: 0 <= i < |address| - 1 && address[i] == ':' && AllDigits(address[i + 1..])
  {
    var n := TrailingDigits(address);
    if HasPortSuffix(address) {
      assert address[|address| - n..] == address[(|address| - n - 1) + 1..];
    }
    if exists i :: 0 <= i < |address| - 1 && address[i] == ':' && AllDigits(address[i + 1..]) {
      var i :| 0 <= i < |address| - 1 && address[i] == ':' && AllDigits(address[i + 1..]);
    }
  }

  /** The endpoint key: the address itself when it already carries a port, else "<address>:<port>". */
  function EndpointKey(address: string, port: U16): (key: string)
    ensures HasPortSuffix(key)
    ensures HasPortSuffix(address) ==> key == address
  {
    if HasPortSuffix(address) then address
    else
      var key := address + ":" + Itoa(port);
      var digits := Itoa(port);
      assert key[|key| - |digits|..] == digits;
      assert TrailingDigits(key) >= |digits| by {
        TrailingDigitsOfSuffix(address + ":", digits);
      }
      assert TrailingDigits(key) == |digits| by {
        assert key[|key| - |digits| - 1] == ':';
      }
      key
  }

  /** A run of digits after anything ends in at least that many trailing digits. */
  lemma {:induction false} TrailingDigitsOfSuffix(prefix: string, digits: string)
    requires AllDigits(digits)
    ensures TrailingDigits(prefix + digits) >= |digits|
    decreases |digits|
  {
    if digits != [] {
      var init := digits[..|digits| - 1];
      assert (prefix + digits)[..|prefix + digits| - 1] == prefix + init;
      TrailingDigitsOfSuffix(prefix, init);
    }
  }

  /** Keying an endpoint twice changes nothing: a key already carries its port. */
  lemma EndpointKeyIdempotent(address: string, port: U16, other: U16)
    ensures EndpointKey(EndpointKey(address, port), other) == EndpointKey(address, port)
  {
  }

  /**
   * addWeightedZoneEndpoint: allocate the endpoint map if needed and store the endpoint
   * under its key, replacing any endpoint already stored under that key.
   */
  function AddWeightedZoneEndpoint(cc: ClusterConfigs, address: string, port: U16, weight: U32,
                                   cluster: string, lbType: string, contextPath: string): (r: ClusterConfigs)
    ensures r.endpoints.Some?
    ensures var old_ := cc.endpoints.GetOr(map[]);
      r.endpoints.value == old_[EndpointKey(address, port) := WeightedZoneEndpoint(weight, cluster, lbType, contextPath)]
  {
    var eps := if cc.endpoints.None? then map[] else cc.endpoints.value;
    ClusterConfigs(Some(eps[EndpointKey(address, port) := WeightedZoneEndpoint(weight, cluster, lbType, contextPath)]))
  }

  /** The endpoint is stored under a host:port key; every other key keeps its endpoint. */
  lemma AddWeightedZoneEndpointStores(cc: ClusterConfigs, address: string, port: U16, weight: U32,
                                      cluster: string, lbType: string, contextPath: string)
    ensures var r := AddWeightedZoneEndpoint(cc, address, port, weight, cluster, lbType, contextPath).endpoints.value;
      (forall k :: k in r ==> HasPortSuffix(k) || (cc.endpoints.Some? && k in cc.endpoints.value))
      && r[EndpointKey(address, port)].weight == weight
      && (forall k :: cc.endpoints.Some? && k in cc.endpoints.value && k != EndpointKey(address, port) ==> k in r && r[k] == cc.endpoints.value[k])
  {
  }

  /** newClusterConfigs: the configuration of a cluster, created without endpoints when absent. */
  function NewClusterConfigs(otp: OutboundTrafficPolicy, clusterName: string): (r: OutboundTrafficPolicy)
    ensures clusterName in r.clustersConfigs
    ensures clusterName in otp.clustersConfigs ==> r == otp
    ensures clusterName !in otp.clustersConfigs ==> r.clustersConfigs == otp.clustersConfigs[clusterName := ClusterConfigs(None)]
    ensures r.(clustersConfigs := otp.clustersConfigs) == otp
  {
    if clusterName in otp.clustersConfigs then otp
    else otp.(clustersConfigs := otp.clustersConfigs[clusterName := ClusterConfigs(None)])
  }

  // ---- rebalancing ----

  /** Some endpoint of the cluster is local (has no cluster key). */
  predicate HasLocalEndpoints(eps: map<string, WeightedZoneEndpoint>) {
    exists k :: k in eps && eps[k].cluster == ""
  }

  /**
   * The rebalanced weight: a remote fail-over endpoint gets 0 when the cluster has a local
   * endpoint and 100 otherwise; a remote active-active or a local endpoint with weight 0
   * gets 100; anything else keeps its weight.
   */
  function RebalancedWeight(wze: WeightedZoneEndpoint, hasLocal: bool, lb: LbTypes): U32 {
    if |wze.cluster| > 0 then
      if lb.failOver == wze.lbType then
        if hasLocal then ClusterWeightFailOver else ClusterWeightAcceptAll
      else if lb.activeActive == wze.lbType then
        if wze.weight == 0 then ClusterWeightAcceptAll else wze.weight
      else wze.weight
    else if wze.weight == 0 then ClusterWeightAcceptAll else wze.weight
  }

  /** The endpoints of one cluster after rebalancing. */
  function Rebalanced(eps: map<string, WeightedZoneEndpoint>, lb: LbTypes): (r: map<string, WeightedZoneEndpoint>)
    ensures r.Keys == eps.Keys
    ensures forall k :: k in eps ==> r[k].(weight := eps[k].weight) == eps[k]
  {
    map k | k in eps :: eps[k].(weight := RebalancedWeight(eps[k], HasLocalEndpoints(eps), lb))
  }

  /**
   * After rebalancing no local or active-active endpoint has weight 0, and a fail-over
   * endpoint has weight 0 exactly when its cluster has a local endpoint.
   */
  lemma RebalancedWeights(eps: map<string, WeightedZoneEndpoint>, lb: LbTypes, k: string)
    requires k in eps
    ensures var w := Rebalanced(eps, lb)[k];
      (eps[k].cluster == "" ==> w.weight != 0)
      && (eps[k].cluster != "" && eps[k].lbType == lb.failOver ==> (w.weight == 0 <==> HasLocalEndpoints(eps)))
      && (eps[k].cluster != "" && eps[k].lbType != lb.failOver && eps[k].lbType == lb.activeActive ==> w.weight != 0)
      && (eps[k].cluster != "" && eps[k].lbType != lb.failOver && eps[k].lbType != lb.activeActive ==> w == eps[k])
  {
  }

  /** Rebalancing twice is rebalancing once: the local endpoints, and so every new weight, stay the same. */
  lemma RebalancedIdempotent(eps: map<string, WeightedZoneEndpoint>, lb: LbTypes)
    ensures Rebalanced(Rebalanced(eps, lb), lb) == Rebalanced(eps, lb)
  {
    var r := Rebalanced(eps, lb);
    assert HasLocalEndpoints(r) == HasLocalEndpoints(eps) by {
      if HasLocalEndpoints(eps) {
        var k :| k in eps && eps[k].cluster == "";
        assert r[k].cluster == "";
      }
      if HasLocalEndpoints(r) {
        var k :| k in r && r[k].cluster == "";
        assert eps[k].cluster == "";
      }
    }
  }

  /** The loop looking for a local endpoint, stopping at the first. */
  method FindLocalEndpoints(eps: map<string, WeightedZoneEndpoint>) returns (hasLocal: bool)
    ensures hasLocal <==> HasLocalEndpoints(eps)
  {
    hasLocal := false;
    var remaining := eps.Keys;
    while remaining != {}
      invariant remaining <= eps.Keys
      invariant forall k :: k in eps && k !in remaining ==> eps[k].cluster != ""
      decreases |remaining|
    {
      var k :| k in remaining;
      if |eps[k].cluster| == 0 {
        hasLocal := true;
        break;
      }
      remaining := remaining - {k};
    }
  }

  /** The loop rewriting the weights of one cluster's endpoints. */
  method RebalanceEndpoints(eps: map<string, WeightedZoneEndpoint>, lb: LbTypes) returns (r: map<string, WeightedZoneEndpoint>)
    ensures r == Rebalanced(eps, lb)
  {
    var hasLocal := FindLocalEndpoints(eps);
    r := eps;
    var remaining := eps.Keys;
    while remaining != {}
      invariant remaining <= eps.Keys && r.Keys == eps.Keys
      invariant forall k :: k in remaining ==> r[k] == eps[k]
      invariant forall k :: k in eps && k !in remaining ==> r[k] == Rebalanced(eps, lb)[k]
      decreases |remaining|
    {
      var k :| k in remaining;
      var wze := eps[k];
      r := r[k := wze.(weight := RebalancedWeight(wze, hasLocal, lb))];
      remaining := remaining - {k};
    }
  }

  /** Every cluster's endpoints rebalanced; clusters without endpoints are left alone. */
  function RebalancedClusters(ccs: map<string, ClusterConfigs>, lb: LbTypes): (r: map<string, ClusterConfigs>)
    ensures r.Keys == ccs.Keys
    ensures forall c :: c in ccs && ccs[c].endpoints.None? ==> r[c] == ccs[c]
    ensures forall c :: c in ccs && ccs[c].endpoints.Some? ==> r[c] == ClusterConfigs(Some(Rebalanced(ccs[c].endpoints.value, lb)))
  {
    map c | c in ccs :: if ccs[c].endpoints.None? then ccs[c] else ClusterConfigs(Some(Rebalanced(ccs[c].endpoints.value, lb)))
  }

  // ---- ordering ----

  /** The route-rule comparator: never true for the match-all path, else the byte-wise path order. */
  function RouteLess(a: HTTPRouteRule, b: HTTPRouteRule): (less: bool)
    ensures a.matchRule.path == RegexMatchAll ==> !less
    ensures a.matchRule.path != RegexMatchAll ==> (less <==> StrLess(a.matchRule.path, b.matchRule.path))
  {
    if a.matchRule.path == RegexMatchAll then false else StrLess(a.matchRule.path, b.matchRule.path)
  }

  function RuleWithPath(path: string): HTTPRouteRule {
    HTTPRouteRule(HTTPMatchRule(path, PathMatchRegex, map[], [], true), map[])
  }

  /**
   * The comparator is not a strict weak order: '.' sorts before '/', so "/a" and "/b" are
   * each unordered against ".*" yet ordered against each other.
   */
  lemma RouteLessIsNotStrictWeakOrder()
    ensures !Sorting.StrictWeakOrder(RouteLess)
  {
    var a, b, all := RuleWithPath("/a"), RuleWithPath("/b"), RuleWithPath(RegexMatchAll);
    assert StrLess("/a", "/b") by {
      assert "/a"[1..] == "a" && "/b"[1..] == "b";
    }
    assert !StrLess("/a", RegexMatchAll);
    assert RouteLess(a, b) && !RouteLess(a, all) && !RouteLess(all, b);
  }

  /** The plugin comparator: higher priority first. */
  function PluginLess(a: TrafficPolicy.Plugin, b: TrafficPolicy.Plugin): bool {
    a.priority > b.priority
  }

  lemma PluginLessIsStrictWeakOrder()
    ensures Sorting.StrictWeakOrder(PluginLess)
  {
  }

  /** The route rules of a list in the order the insertion sort leaves them. */
  method SortRouteRules(rules: seq<HTTPRouteRule>) returns (sorted: seq<HTTPRouteRule>)
    ensures sorted == Sorting.InsSort(rules, RouteLess)
    ensures multiset(sorted) == multiset(rules)
  {
    Sorting.InsSortMultiset(rules, RouteLess);
    if |rules| <= 1 {
      return rules;
    }
    var a := new HTTPRouteRule[|rules|](i requires 0 <= i < |rules| => rules[i]);
    assert a[..] == rules;
    Sorting.InsertionSort(a, RouteLess);
    sorted := a[..];
  }

  // ---- the document ----

  /** The whole document as a value: what serialization sees. */
  datatype PipyConfValue = PipyConfValue(ts: Option<int>, version: Option<string>, spec: MeshConfigSpec,
                                         outbound: Option<OutboundTrafficPolicy>, chains: map<string, seq<string>>,
                                         dnsResolveDB: map<string, seq<string>>)

  /**
   * The local DNS proxy setLocalDNSProxy leaves behind: none when disabled; when enabled,
   * upstream servers only if one of the addresses is given, each address only when given.
   */
  predicate DNSProxySet(p: Option<LocalDNSProxy>, enable: bool, primary: string, secondary: string) {
    (p.Some? <==> enable)
    && (enable ==> (p.value.upstreamDNSServers.Some? <==> primary != "" || secondary != ""))
    && (enable && p.value.upstreamDNSServers.Some? ==>
          var up := p.value.upstreamDNSServers.value;
          (up.primary == if primary != "" then Some(primary) else None)
          && (up.secondary == if secondary != "" then Some(secondary) else None))
  }

  /**
   * PipyConf, the configuration document one proxy receives. Ts and Version are pointers in
   * Go (None = nil); Chains and DNSResolveDB are omitted from the document when empty, so nil
   * and empty are the same value here.
   */
  class PipyConf {
    var ts: Option<int>
    var version: Option<string>
    var spec: MeshConfigSpec
    var outbound: Option<OutboundTrafficPolicy>
    var chains: map<string, seq<string>>
    var dnsResolveDB: map<string, seq<string>>

    /** new(PipyConf): every field zero. */
    constructor ()
      ensures ts.None? && version.None? && spec == MeshConfigSpec("", None) && outbound.None?
      ensures chains == map[] && dnsResolveDB == map[]
    {
      ts := None;
      version := None;
      spec := MeshConfigSpec("", None);
      outbound := None;
      chains := map[];
      dnsResolveDB := map[];
    }

    function Value(): PipyConfValue
      reads this
    {
      PipyConfValue(ts, version, spec, outbound, chains, dnsResolveDB)
    }

    /** setSidecarLogLevel: store the level unless it equals the current one up to case. */
    method SetSidecarLogLevel(sidecarLogLevel: string) returns (update: bool)
      modifies this
      ensures update <==> !EqualFold(old(spec.sidecarLogLevel), sidecarLogLevel)
      ensures EqualFold(spec.sidecarLogLevel, sidecarLogLevel)
      ensures update ==> spec.sidecarLogLevel == sidecarLogLevel
      ensures !update ==> spec == old(spec)
      ensures Value().(spec := old(spec)) == old(Value())
    {
      update := !EqualFold(spec.sidecarLogLevel, sidecarLogLevel);
      if update {
        spec := spec.(sidecarLogLevel := sidecarLogLevel);
      }
    }

    /**
     * setLocalDNSProxy: no proxy when disabled; when enabled, upstream servers only if one
     * of the addresses is given, each set only when given.
     */
    method SetLocalDNSProxy(enable: bool, primary: string, secondary: string)
      modifies this
      ensures !enable ==> spec.localDNSProxy.None?
      ensures enable ==> spec.localDNSProxy.Some?
      ensures enable ==> (spec.localDNSProxy.value.upstreamDNSServers.Some? <==> primary != "" || secondary != "")
      ensures enable && spec.localDNSProxy.value.upstreamDNSServers.Some? ==>
        var up := spec.localDNSProxy.value.upstreamDNSServers.value;
        (up.primary == if primary != "" then Some(primary) else None)
        && (up.secondary == if secondary != "" then Some(secondary) else None)
      ensures DNSProxySet(spec.localDNSProxy, enable, primary, secondary)
      ensures spec.sidecarLogLevel == old(spec.sidecarLogLevel)
      ensures Value().(spec := old(spec)) == old(Value())
    {
      if enable {
        var upstream: Option<UpstreamDNSServers> := None;
        if |primary| > 0 || |secondary| > 0 {
          var servers := UpstreamDNSServers(None, None);
          if |primary| > 0 {
            servers := servers.(primary := Some(primary));
          }
          if |secondary| > 0 {
            servers := servers.(secondary := Some(secondary));
          }
          upstream := Some(servers);
        }
        spec := spec.(localDNSProxy := Some(LocalDNSProxy(upstream)));
      } else {
        spec := spec.(localDNSProxy := None);
      }
    }

    /** newOutboundTrafficPolicy: allocate the outbound policy once; an existing one is kept. */
    method NewOutboundTrafficPolicy()
      modifies this
      ensures outbound.Some?
      ensures old(outbound).Some? ==> outbound == old(outbound)
      ensures old(outbound).None? ==> outbound == Some(EmptyOutboundTrafficPolicy)
      ensures Value().(outbound := old(outbound)) == old(Value())
    {
      if outbound.None? {
        outbound := Some(EmptyOutboundTrafficPolicy);
      }
    }

    /**
     * rebalancedOutboundClusters: every cluster with endpoints gets its weights rewritten;
     * nothing else in the document changes.
     */
    method RebalancedOutboundClusters(lb: LbTypes)
      modifies this
      ensures old(outbound).None? ==> outbound == old(outbound)
      ensures old(outbound).Some? ==> outbound == Some(old(outbound.value).(clustersConfigs :=
        RebalancedClusters(old(outbound.value.clustersConfigs), lb)))
      ensures Value().(outbound := old(outbound)) == old(Value())
    {
      if outbound.None? {
        return;
      }
      var otp := outbound.value;
      var ccs := otp.clustersConfigs;
      var rebalanced := ccs;
      var remaining := ccs.Keys;
      while remaining != {}
        invariant Value() == old(Value())
        invariant remaining <= ccs.Keys && rebalanced.Keys == ccs.Keys
        invariant forall c :: c in remaining ==> rebalanced[c] == ccs[c]
        invariant forall c :: c in ccs && c !in remaining ==> rebalanced[c] == RebalancedClusters(ccs, lb)[c]
        decreases |remaining|
      {
        var c :| c in remaining;
        var clusterConfigs := ccs[c];
        remaining := remaining - {c};
        if clusterConfigs.endpoints.None? || |clusterConfigs.endpoints.value| == 0 {
          assert clusterConfigs.endpoints.Some? ==> Rebalanced(clusterConfigs.endpoints.value, lb) == clusterConfigs.endpoints.value;
          continue;
        }
        var weighted := RebalanceEndpoints(clusterConfigs.endpoints.value, lb);
        rebalanced := rebalanced[c := ClusterConfigs(Some(weighted))];
      }
      assert rebalanced == RebalancedClusters(ccs, lb);
      outbound := Some(otp.(clustersConfigs := rebalanced));
    }
  }
}
