/**
 * The configurator (configurator/client.go and configurator/methods.go): a read-through of
 * the EcnetConfig informer cache with a zero-valued default, and the getters that apply
 * defaults, precedence and trimming on top of it.
 */
module Configurator {
  import opened Wrappers
  import opened Strings
  import opened TrafficPolicy

  datatype LocalDNSProxySpec = LocalDNSProxySpec(enable: bool, primaryUpstreamDNSServerIPAddr: string,
                                                 secondaryUpstreamDNSServerIPAddr: string)
  datatype SidecarSpec = SidecarSpec(logLevel: string, proxyServerPort: nat, configResyncInterval: string,
                                     localDNSProxy: LocalDNSProxySpec)
  datatype RepoServerSpec = RepoServerSpec(ipAddr: string, codebase: string)
  /** One configured plugin of a chain; Priority is a float32 in the source and an integer here. */
  datatype PluginChainSpec = PluginChainSpec(plugin: string, priority: int, disable: bool)
  datatype PluginChainsSpec = PluginChainsSpec(inboundTCPChains: seq<PluginChainSpec>, inboundHTTPChains: seq<PluginChainSpec>,
                                               outboundTCPChains: seq<PluginChainSpec>, outboundHTTPChains: seq<PluginChainSpec>)
  datatype EcnetConfigSpec = EcnetConfigSpec(sidecar: SidecarSpec, repoServer: RepoServerSpec, pluginChains: PluginChainsSpec)
  datatype EcnetConfig = EcnetConfig(namespace: string, name: string, spec: EcnetConfigSpec)

  /** The zero value of EcnetConfig: every string empty, every flag false, every list empty. */
  const ZeroConfig := EcnetConfig("", "", EcnetConfigSpec(SidecarSpec("", 0, "", LocalDNSProxySpec(false, "", "")),
                                                          RepoServerSpec("", ""), PluginChainsSpec([], [], [], [])))

  /** The three outcomes of an informer cache lookup by key. */
  datatype CacheLookup = CacheError | NotFound | Found(config: EcnetConfig)

  /**
   * The configurator: the control plane's namespace, the EcnetConfig name, the informer
   * cache lookup and the process environment (os.Getenv, "" when unset).
   */
  datatype Client = Client(ecnetNamespace: string, ecnetConfigName: string,
                           cache: string -> CacheLookup, env: string -> string)

  const DefaultSidecarLogLevel := "error"
  const RepoServerIPAddrEnv := "ECNET_REPO_SERVER_IPADDR"
  const RepoServerCodebaseEnv := "ECNET_REPO_SERVER_CODEBASE"
  const DefaultRepoServerIPAddr := "127.0.0.1"

  /** getEcnetConfigCacheKey: "<namespace>/<name>". */
  function CacheKey(c: Client): (key: string)
    ensures |key| == |c.ecnetNamespace| + 1 + |c.ecnetConfigName|
    ensures key[..|c.ecnetNamespace|] == c.ecnetNamespace && key[|c.ecnetNamespace|] == '/'
    ensures key[|c.ecnetNamespace| + 1..] == c.ecnetConfigName
  {
    c.ecnetNamespace + "/" + c.ecnetConfigName
  }

  /** Namespaces have no '/', so different (namespace, name) pairs have different keys. */
  lemma CacheKeyInjective(c1: Client, c2: Client)
    requires '/' !in c1.ecnetNamespace && '/' !in c2.ecnetNamespace
    requires CacheKey(c1) == CacheKey(c2)
    ensures c1.ecnetNamespace == c2.ecnetNamespace && c1.ecnetConfigName == c2.ecnetConfigName
  {
  }

  /**
   * getEcnetConfig: the cached object for the key, or the zero-valued config when the lookup
   * fails or finds nothing.
   */
  function GetEcnetConfig(c: Client): (cfg: EcnetConfig)
    ensures cfg == ZeroConfig || c.cache(CacheKey(c)) == Found(cfg)
    ensures !c.cache(CacheKey(c)).Found? ==> cfg == ZeroConfig
    ensures c.cache(CacheKey(c)).Found? ==> cfg == c.cache(CacheKey(c)).config
  {
    match c.cache(CacheKey(c))
    case CacheError => ZeroConfig
    case NotFound => ZeroConfig
    case Found(item) => item
  }

  function LocalDNSProxyEnabled(c: Client): bool {
    GetEcnetConfig(c).spec.sidecar.localDNSProxy.enable
  }

  function GetLocalDNSProxyPrimaryUpstream(c: Client): string {
    GetEcnetConfig(c).spec.sidecar.localDNSProxy.primaryUpstreamDNSServerIPAddr
  }

  function GetLocalDNSProxySecondaryUpstream(c: Client): string {
    GetEcnetConfig(c).spec.sidecar.localDNSProxy.secondaryUpstreamDNSServerIPAddr
  }

  function GetProxyServerPort(c: Client): nat {
    GetEcnetConfig(c).spec.sidecar.proxyServerPort
  }

  /**
   * Without a cached config every getter sees the zero value: the DNS proxy is disabled and
   * has no upstream servers, and the proxy server port is 0.
   */
  lemma MissingConfigDefaults(c: Client)
    requires !c.cache(CacheKey(c)).Found?
    ensures !LocalDNSProxyEnabled(c) && GetLocalDNSProxyPrimaryUpstream(c) == "" && GetLocalDNSProxySecondaryUpstream(c) == ""
    ensures GetProxyServerPort(c) == 0
  {
  }

  /** The configured sidecar log level, "error" when none is configured; never empty. */
  function GetSidecarLogLevel(c: Client): (level: string)
    ensures level != ""
    ensures GetEcnetConfig(c).spec.sidecar.logLevel != "" ==> level == GetEcnetConfig(c).spec.sidecar.logLevel
    ensures GetEcnetConfig(c).spec.sidecar.logLevel == "" ==> level == DefaultSidecarLogLevel
  {
    var logLevel := GetEcnetConfig(c).spec.sidecar.logLevel;
    if logLevel != "" then logLevel else DefaultSidecarLogLevel
  }

  /** The environment variable, else the configured address, else the loopback address; never empty. */
  method GetRepoServerIPAddr(c: Client) returns (ipAddr: string)
    ensures ipAddr != ""
    ensures c.env(RepoServerIPAddrEnv) != "" ==> ipAddr == c.env(RepoServerIPAddrEnv)
    ensures c.env(RepoServerIPAddrEnv) == "" && GetEcnetConfig(c).spec.repoServer.ipAddr != "" ==>
      ipAddr == GetEcnetConfig(c).spec.repoServer.ipAddr
    ensures c.env(RepoServerIPAddrEnv) == "" && GetEcnetConfig(c).spec.repoServer.ipAddr == "" ==> ipAddr == DefaultRepoServerIPAddr
  {
    ipAddr := c.env(RepoServerIPAddrEnv);
    if |ipAddr| == 0 {
      ipAddr := GetEcnetConfig(c).spec.repoServer.ipAddr;
    }
    if |ipAddr| == 0 {
      ipAddr := DefaultRepoServerIPAddr;
    }
  }

  /**
   * The codebase with at most one trailing "/" and then at most one leading "/" removed:
   * what remains is a slice of the input that drops exactly those characters.
   */
  function TrimCodebase(codebase: string): (r: string)
    ensures var end := if HasSuffix(codebase, "/") then |codebase| - 1 else |codebase|;
      var start := if HasPrefix(codebase[..end], "/") then 1 else 0;
      start <= end && r == codebase[start..end]
  {
    var trimmed := if |codebase| > 0 && HasSuffix(codebase, "/") then TrimSuffix(codebase, "/") else codebase;
    if |trimmed| > 0 && HasPrefix(trimmed, "/") then TrimPrefix(trimmed, "/") else trimmed
  }

  /** A codebase written with surrounding slashes loses exactly those two. */
  lemma TrimCodebaseWrapped(x: string)
    ensures TrimCodebase("/" + x + "/") == x
  {
    var w := "/" + x + "/";
    assert w[..|w| - 1] == "/" + x;
    assert ("/" + x)[..1] == "/";
    assert w[1..|w| - 1] == x;
  }

  /** A codebase without a leading or trailing slash is kept as it is. */
  lemma TrimCodebaseClean(x: string)
    requires x == [] || (x[0] != '/' && x[|x| - 1] != '/')
    ensures TrimCodebase(x) == x
  {
  }

  /** The environment variable, else the configured codebase, then trimmed. */
  method GetRepoServerCodebase(c: Client) returns (codebase: string)
    ensures var raw := if c.env(RepoServerCodebaseEnv) != "" then c.env(RepoServerCodebaseEnv)
                       else GetEcnetConfig(c).spec.repoServer.codebase;
      codebase == TrimCodebase(raw)
  {
    codebase := c.env(RepoServerCodebaseEnv);
    if |codebase| == 0 {
      codebase := GetEcnetConfig(c).spec.repoServer.codebase;
    }
    if |codebase| > 0 && HasSuffix(codebase, "/") {
      codebase := TrimSuffix(codebase, "/");
    }
    if |codebase| > 0 && HasPrefix(codebase, "/") {
      codebase := TrimPrefix(codebase, "/");
    }
  }

  /** The parsed resync interval (time.ParseDuration, a parameter here), 0 when it does not parse. */
  function GetConfigResyncInterval(c: Client, parseDuration: string -> Option<int>): (d: int)
    ensures parseDuration(GetEcnetConfig(c).spec.sidecar.configResyncInterval).None? ==> d == 0
    ensures parseDuration(GetEcnetConfig(c).spec.sidecar.configResyncInterval).Some? ==>
      d == parseDuration(GetEcnetConfig(c).spec.sidecar.configResyncInterval).value
  {
    match parseDuration(GetEcnetConfig(c).spec.sidecar.configResyncInterval)
    case None => 0
    case Some(duration) => duration
  }

  /** The enabled plugins of a chain, in order, as built-in plugins with their names and priorities. */
  function EnabledPlugins(specs: seq<PluginChainSpec>): seq<Plugin> {
    if specs == [] then []
    else
      var s := specs[|specs| - 1];
      EnabledPlugins(specs[..|specs| - 1]) + (if s.disable then [] else [Plugin(s.plugin, s.priority, "", true)])
  }

  /** The filter distributes over concatenation, so the order of the configured plugins is kept. */
  lemma {:induction false} EnabledPluginsAppend(a: seq<PluginChainSpec>, b: seq<PluginChainSpec>)
    ensures EnabledPlugins(a + b) == EnabledPlugins(a) + EnabledPlugins(b)
    decreases |b|
  {
    if b == [] {
      assert a + b == a;
    } else {
      EnabledPluginsAppend(a, b[..|b| - 1]);
      assert (a + b)[..|a + b| - 1] == a + b[..|b| - 1];
    }
  }

  /** Every plugin of a chain comes from an enabled spec, as a built-in plugin with its name and priority. */
  lemma {:induction false} EnabledPluginsFromSpecs(specs: seq<PluginChainSpec>, p: Plugin)
    requires p in EnabledPlugins(specs)
    ensures p.buildIn && exists s :: s in specs && !s.disable && p.name == s.plugin && p.priority == s.priority
    decreases |specs|
  {
    var init := specs[..|specs| - 1];
    if p in EnabledPlugins(init) {
      EnabledPluginsFromSpecs(init, p);
      var s :| s in init && !s.disable && p.name == s.plugin && p.priority == s.priority;
      assert s in specs;
    } else {
      assert specs[|specs| - 1] in specs;
    }
  }

  /** One chain's loop: skip disabled specs, append the rest. */
  method ChainPlugins(specs: seq<PluginChainSpec>) returns (chain: seq<Plugin>)
    ensures chain == EnabledPlugins(specs)
  {
    chain := [];
    for i := 0 to |specs|
      invariant chain == EnabledPlugins(specs[..i])
    {
      assert specs[..i + 1][..i] == specs[..i];
      var plugin := specs[i];
      if plugin.disable {
        continue;
      }
      chain := chain + [Plugin(plugin.plugin, plugin.priority, "", true)];
    }
    assert specs[..|specs|] == specs;
  }

  const InboundTCP := "inbound-tcp"
  const InboundHTTP := "inbound-http"
  const OutboundTCP := "outbound-tcp"
  const OutboundHTTP := "outbound-http"

  /** The four chains, always under exactly the four mount-point keys. */
  method GetGlobalPluginChains(c: Client) returns (pluginChainMap: map<string, seq<Plugin>>)
    ensures pluginChainMap.Keys == {InboundTCP, InboundHTTP, OutboundTCP, OutboundHTTP}
    ensures var spec := GetEcnetConfig(c).spec.pluginChains;
      pluginChainMap[InboundTCP] == EnabledPlugins(spec.inboundTCPChains)
      && pluginChainMap[InboundHTTP] == EnabledPlugins(spec.inboundHTTPChains)
      && pluginChainMap[OutboundTCP] == EnabledPlugins(spec.outboundTCPChains)
      && pluginChainMap[OutboundHTTP] == EnabledPlugins(spec.outboundHTTPChains)
  {
    var pluginChainSpec := GetEcnetConfig(c).spec.pluginChains;
    var inboundTCPChains := ChainPlugins(pluginChainSpec.inboundTCPChains);
    var inboundHTTPChains := ChainPlugins(pluginChainSpec.inboundHTTPChains);
    var outboundTCPChains := ChainPlugins(pluginChainSpec.outboundTCPChains);
    var outboundHTTPChains := ChainPlugins(pluginChainSpec.outboundHTTPChains);
    pluginChainMap := map[];
    pluginChainMap := pluginChainMap[InboundTCP := inboundTCPChains];
    pluginChainMap := pluginChainMap[InboundHTTP := inboundHTTPChains];
    pluginChainMap := pluginChainMap[OutboundTCP := outboundTCPChains];
    pluginChainMap := pluginChainMap[OutboundHTTP := outboundHTTPChains];
  }
}
