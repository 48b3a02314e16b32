/**
 * The sidecar plugin chains of a proxy document: every configured mount point with a
 * non-empty plugin list becomes a list of script URIs, highest priority first.
 */
module PipyPlugin {
  import opened TrafficPolicy
  import Sorting
  import Configurator
  import opened PipyPolicy

  /** getPluginURI: the repository path of a custom plugin's script. */
  function PluginURI(name: string): string {
    "plugins/" + name + ".js"
  }

  /** The URI one plugin contributes: a built-in script by its bare name, any other under plugins/. */
  function ChainURI(p: Plugin): string {
    if p.buildIn then p.name + ".js" else PluginURI(p.name)
  }

  /** Both kinds of URI name a script: the name is recovered by dropping the prefix and ".js". */
  lemma ChainURIRecoversName(p: Plugin)
    ensures var prefix := if p.buildIn then "" else "plugins/";
      |ChainURI(p)| == |prefix| + |p.name| + 3
      && ChainURI(p)[..|prefix|] == prefix
      && ChainURI(p)[|prefix|..|prefix| + |p.name|] == p.name
      && ChainURI(p)[|prefix| + |p.name|..] == ".js"
  {
  }

  /** Two plugins of the same kind share a URI only if they share a name. */
  lemma ChainURIInjective(p: Plugin, q: Plugin)
    requires p.buildIn == q.buildIn
    requires ChainURI(p) == ChainURI(q)
    ensures p.name == q.name
  {
    ChainURIRecoversName(p);
    ChainURIRecoversName(q);
  }

  /** The URIs of a plugin list, one per plugin, in list order. */
  function URIs(plugins: seq<Plugin>): (uris: seq<string>)
    ensures |uris| == |plugins|
    ensures forall i :: 0 <= i < |plugins| ==> uris[i] == ChainURI(plugins[i])
  {
    if plugins == [] then [] else URIs(plugins[..|plugins| - 1]) + [ChainURI(plugins[|plugins| - 1])]
  }

  /** A chain: its plugins sorted by priority (insertion sort, as sort.Sort does for short lists), then their URIs. */
  function ChainURIs(plugins: seq<Plugin>): seq<string> {
    URIs(Sorting.InsSort(plugins, PluginLess))
  }

  lemma {:induction false} URIsOfInsert(s: seq<Plugin>, x: Plugin)
    ensures multiset(URIs(Sorting.Insert(s, x, PluginLess))) == multiset(URIs(s)) + multiset{ChainURI(x)}
    decreases |s|
  {
    if s != [] && PluginLess(x, s[|s| - 1]) {
      URIsOfInsert(s[..|s| - 1], x);
      var r := Sorting.Insert(s[..|s| - 1], x, PluginLess);
      assert (r + [s[|s| - 1]])[..|r|] == r;
      assert URIs(s) == URIs(s[..|s| - 1]) + [ChainURI(s[|s| - 1])];
    } else if s != [] {
      assert (s + [x])[..|s|] == s;
    }
  }

  lemma {:induction false} URIsOfInsSort(s: seq<Plugin>)
    ensures multiset(ChainURIs(s)) == multiset(URIs(s))
    decreases |s|
  {
    if s != [] {
      URIsOfInsSort(s[..|s| - 1]);
      URIsOfInsert(Sorting.InsSort(s[..|s| - 1], PluginLess), s[|s| - 1]);
    }
  }

  /**
   * A chain holds exactly one URI per plugin, the same URIs as the unsorted list with the
   * same multiplicities, in an order of non-increasing priority (ties in an unspecified order).
   */
  lemma ChainURIsOrdered(plugins: seq<Plugin>)
    ensures |ChainURIs(plugins)| == |plugins|
    ensures multiset(ChainURIs(plugins)) == multiset(URIs(plugins))
    ensures var sorted := Sorting.InsSort(plugins, PluginLess);
      multiset(sorted) == multiset(plugins)
      && (forall i, j :: 0 <= i < j < |sorted| ==> sorted[i].priority >= sorted[j].priority)
      && (forall i :: 0 <= i < |sorted| ==> ChainURIs(plugins)[i] == ChainURI(sorted[i]))
  {
    Sorting.InsSortMultiset(plugins, PluginLess);
    PluginLessIsStrictWeakOrder();
    Sorting.InsSortSorted(plugins, PluginLess);
    URIsOfInsSort(plugins);
    assert |Sorting.InsSort(plugins, PluginLess)| == |multiset(plugins)|;
  }

  /** The chains of a document: one entry per mount point whose plugin list is non-empty. */
  function Chains(pluginChains: map<string, seq<Plugin>>): (chains: map<string, seq<string>>)
    ensures forall m :: m in chains <==> m in pluginChains && pluginChains[m] != []
  {
    map m | m in pluginChains && pluginChains[m] != [] :: ChainURIs(pluginChains[m])
  }

  /** Every mount point with plugins gets its sorted URIs, and nothing else is in the map. */
  lemma ChainsSpec(pluginChains: map<string, seq<Plugin>>, m: string)
    requires m in pluginChains && pluginChains[m] != []
    ensures m in Chains(pluginChains)
    ensures |Chains(pluginChains)[m]| == |pluginChains[m]|
    ensures multiset(Chains(pluginChains)[m]) == multiset(URIs(pluginChains[m]))
  {
    ChainURIsOrdered(pluginChains[m]);
  }

  /** One chain: the plugins sorted in place, then the URIs collected from the sorted slice. */
  method SortedChainURIs(pluginItems: seq<Plugin>) returns (pluginURIs: seq<string>)
    ensures pluginURIs == ChainURIs(pluginItems)
  {
    var pluginSlice := new Plugin[|pluginItems|](i requires 0 <= i < |pluginItems| => pluginItems[i]);
    assert pluginSlice[..] == pluginItems;
    Sorting.InsertionSort(pluginSlice, PluginLess);
    pluginURIs := [];
    for i := 0 to pluginSlice.Length
      invariant pluginURIs == URIs(pluginSlice[..i])
    {
      assert pluginSlice[..i + 1][..i] == pluginSlice[..i];
      var pluginItem := pluginSlice[i];
      if pluginItem.buildIn {
        pluginURIs := pluginURIs + [pluginItem.name + ".js"];
      } else {
        pluginURIs := pluginURIs + [PluginURI(pluginItem.name)];
      }
    }
    assert pluginSlice[..pluginSlice.Length] == pluginSlice[..];
  }

  /** The loop of setSidecarChain over the configurator's chains, in any map order. */
  method BuildChains(pluginChains: map<string, seq<Plugin>>) returns (chains: map<string, seq<string>>)
    ensures chains == Chains(pluginChains)
  {
    chains := map[];
    var remaining := pluginChains.Keys;
    while remaining != {}
      invariant remaining <= pluginChains.Keys
      invariant forall m :: m in chains <==> m in pluginChains && m !in remaining && pluginChains[m] != []
      invariant forall m :: m in chains ==> chains[m] == ChainURIs(pluginChains[m])
      decreases |remaining|
    {
      var mountPoint :| mountPoint in remaining;
      remaining := remaining - {mountPoint};
      var pluginItems := pluginChains[mountPoint];
      if |pluginItems| > 0 {
        var pluginURIs := SortedChainURIs(pluginItems);
        chains := chains[mountPoint := pluginURIs];
      }
    }
  }

  /** The four global chains the configurator serves, as a map from mount point to plugins. */
  function GlobalChains(cfg: Configurator.Client): (pluginChains: map<string, seq<Plugin>>)
    ensures pluginChains.Keys == {Configurator.InboundTCP, Configurator.InboundHTTP, Configurator.OutboundTCP, Configurator.OutboundHTTP}
  {
    var spec := Configurator.GetEcnetConfig(cfg).spec.pluginChains;
    map[Configurator.InboundTCP := Configurator.EnabledPlugins(spec.inboundTCPChains),
        Configurator.InboundHTTP := Configurator.EnabledPlugins(spec.inboundHTTPChains),
        Configurator.OutboundTCP := Configurator.EnabledPlugins(spec.outboundTCPChains),
        Configurator.OutboundHTTP := Configurator.EnabledPlugins(spec.outboundHTTPChains)]
  }

  /**
   * setSidecarChain: Chains is replaced by a map built only from the configurator's chains;
   * nothing else in the document changes.
   */
  method SetSidecarChain(cfg: Configurator.Client, pipyConf: PipyConf)
    modifies pipyConf
    ensures pipyConf.chains == Chains(GlobalChains(cfg))
    ensures pipyConf.Value().(chains := old(pipyConf.chains)) == old(pipyConf.Value())
  {
    var pluginChains := Configurator.GetGlobalPluginChains(cfg);
    assert pluginChains == GlobalChains(cfg);
    pipyConf.chains := map[];
    var chains := BuildChains(pluginChains);
    pipyConf.chains := chains;
  }

  /** Every plugin the configurator serves on a global mount point is a built-in one. */
  lemma GlobalChainsAllBuiltIn(cfg: Configurator.Client, m: string)
    requires m in GlobalChains(cfg)
    ensures forall p :: p in GlobalChains(cfg)[m] ==> p.buildIn
  {
    var spec := Configurator.GetEcnetConfig(cfg).spec.pluginChains;
    EnabledPluginsBuiltIn(spec.inboundTCPChains);
    EnabledPluginsBuiltIn(spec.inboundHTTPChains);
    EnabledPluginsBuiltIn(spec.outboundTCPChains);
    EnabledPluginsBuiltIn(spec.outboundHTTPChains);
  }

  lemma EnabledPluginsBuiltIn(specs: seq<Configurator.PluginChainSpec>)
    ensures forall p :: p in Configurator.EnabledPlugins(specs) ==> p.buildIn
  {
    forall p | p in Configurator.EnabledPlugins(specs) {
      Configurator.EnabledPluginsFromSpecs(specs, p);
    }
  }

  /** Every URI of a chain is the URI of one of its plugins. */
  lemma ChainURIFrom(plugins: seq<Plugin>, i: nat)
    requires i < |ChainURIs(plugins)|
    ensures exists p :: p in plugins && ChainURIs(plugins)[i] == ChainURI(p)
  {
    ChainURIsOrdered(plugins);
    var p := Sorting.InsSort(plugins, PluginLess)[i];
    assert p in multiset(plugins);
  }

  /** Only the four global mount points can carry a chain, and every URI names a built-in script. */
  lemma GlobalChainsBuiltIn(cfg: Configurator.Client, m: string, i: nat)
    requires m in Chains(GlobalChains(cfg)) && i < |Chains(GlobalChains(cfg))[m]|
    ensures m in {Configurator.InboundTCP, Configurator.InboundHTTP, Configurator.OutboundTCP, Configurator.OutboundHTTP}
    ensures exists p :: p in GlobalChains(cfg)[m] && p.buildIn && Chains(GlobalChains(cfg))[m][i] == p.name + ".js"
  {
    var plugins := GlobalChains(cfg)[m];
    assert Chains(GlobalChains(cfg))[m] == ChainURIs(plugins);
    GlobalChainsAllBuiltIn(cfg, m);
    ChainURIFrom(plugins, i);
    var p :| p in plugins && ChainURIs(plugins)[i] == ChainURI(p);
    assert p.buildIn;
  }
}
