/**
 * The multicluster service provider (service/providers/fsm/client.go): endpoints of
 * imported services with their cluster, load-balancer and weight annotations, resolvable
 * endpoints, and the translation of Kubernetes services into per-port mesh services.
 */
module FsmProvider {
  import opened Wrappers
  import opened Bytes
  import opened Strings
  import opened Mesh
  import opened K8s

  /** The provider's client: its multicluster controller and the address helpers. */
  datatype Client = Client(controller: Controller, net: NetHelpers)

  /** GetID */
  const ProviderName := FlomeshProviderName

  /**
   * The endpoint built for one kept address and port: the four annotations keyed by the
   * address text and the port; the weight is what strconv.ParseUint(…, 10, 32) returns,
   * converted to uint32.
   */
  function FsmEndpoint(eps: Endpoints): Builder {
    (a: EndpointAddress, p: EndpointPort, ip: string) =>
      Endpoint(ip, p.port,
               Annotation(eps, AnnotationKey(ClusterKey, a.ip, p.port)),
               Annotation(eps, AnnotationKey(LBType, a.ip, p.port)),
               ToU32(ParseUintValue(Annotation(eps, AnnotationKey(LBWeight, a.ip, p.port)), 32)),
               Annotation(eps, AnnotationKey(ContextPath, a.ip, p.port)))
  }

  method ListEndpointsForService(c: Client, svc: MeshService) returns (endpoints: seq<Endpoint>)
    ensures endpoints == ListedEndpoints(c.controller, c.net, FsmEndpoint, svc)
  {
    var kubernetesEndpoints := c.controller.getEndpoints(svc);
    if kubernetesEndpoints.None? {
      return [];
    }
    endpoints := CollectEndpoints(svc, c.net, FsmEndpoint(kubernetesEndpoints.value), kubernetesEndpoints.value.subsets);
  }

  /**
   * Every listed endpoint matches the service's TargetPort (when known) and carries, for
   * some kept address, that address's parsed IP and the annotations stored under that
   * address and the endpoint's port. A missing or non-numeric weight annotation gives 0,
   * and one out of the 32-bit range gives 4294967295.
   */
  lemma ListedEndpointFromAnnotations(c: Client, svc: MeshService, e: Endpoint)
    requires e in ListedEndpoints(c.controller, c.net, FsmEndpoint, svc)
    ensures c.controller.getEndpoints(svc).Some?
    ensures svc.targetPort != 0 ==> e.port == svc.targetPort
    ensures var eps := c.controller.getEndpoints(svc).value;
      exists a: EndpointAddress :: AddressSelected(svc, c.net, a) && e.ip == c.net.parseIP(a.ip).value
        && e.clusterKey == Annotation(eps, AnnotationKey(ClusterKey, a.ip, e.port))
        && e.lbType == Annotation(eps, AnnotationKey(LBType, a.ip, e.port))
        && e.path == Annotation(eps, AnnotationKey(ContextPath, a.ip, e.port))
        && e.weight == ParseUintValue(Annotation(eps, AnnotationKey(LBWeight, a.ip, e.port)), 32)
  {
    var eps := c.controller.getEndpoints(svc).value;
    SubsetEndpointsMembership(svc, c.net, FsmEndpoint(eps), eps.subsets, e);
    var i :| 0 <= i < |eps.subsets| && ProducedBy(svc, c.net, FsmEndpoint(eps), eps.subsets[i].addresses, eps.subsets[i].ports, e);
    var sub := eps.subsets[i];
    var j, k :| 0 <= j < |sub.ports| && 0 <= k < |sub.addresses|
      && PortSelected(svc, sub.ports[j]) && AddressSelected(svc, c.net, sub.addresses[k])
      && e == FsmEndpoint(eps)(sub.addresses[k], sub.ports[j], c.net.parseIP(sub.addresses[k].ip).value);
    var a := sub.addresses[k];
    ParsedWeightFits(Annotation(eps, AnnotationKey(LBWeight, a.ip, e.port)));
    assert AddressSelected(svc, c.net, a) && e.ip == c.net.parseIP(a.ip).value;
  }

  /** A weight parsed with bit size 32 survives the conversion to uint32 unchanged. */
  lemma ParsedWeightFits(s: string)
    ensures ToU32(ParseUintValue(s, 32)) == ParseUintValue(s, 32)
  {
    Pow2Of32();
  }

  method GetResolvableEndpointsForService(c: Client, svc: MeshService) returns (endpoints: seq<Endpoint>)
    ensures endpoints == ResolvableEndpoints(c.controller, c.net, FsmEndpoint, ProviderName, svc)
  {
    var kubeService := c.controller.getService(svc);
    if kubeService.None? {
      return [];
    }
    if |kubeService.value.clusterIP| == 0 || kubeService.value.clusterIP == ClusterIPNone {
      endpoints := ListEndpointsForService(c, svc);
      return;
    }
    var ip := c.net.parseIP(kubeService.value.clusterIP);
    if ip.None? {
      return [];
    }
    endpoints := AppendClusterIPEndpoints(ip.value, kubeService.value.ports, ProviderName);
  }

  /**
   * A service with a parseable cluster IP resolves to one endpoint per service port, at
   * that IP and keyed by this provider's name.
   */
  lemma ClusterIPResolvesPerPort(c: Client, svc: MeshService, k: Service, ip: string)
    requires c.controller.getService(svc) == Some(k)
    requires |k.clusterIP| != 0 && k.clusterIP != ClusterIPNone && c.net.parseIP(k.clusterIP) == Some(ip)
    ensures var r := ResolvableEndpoints(c.controller, c.net, FsmEndpoint, ProviderName, svc);
      |r| == |k.ports| && forall i :: 0 <= i < |r| ==> r[i].ip == ip && r[i].port == k.ports[i].port && r[i].clusterKey == FlomeshProviderName
  {
  }

  /**
   * The protocol taken from a port name: the first supported protocol p for which the name
   * starts with p + "-", else http.
   */
  function PrefixProtocol(name: string, protocols: seq<string>): string {
    if protocols == [] then ProtocolHTTP
    else if HasPrefix(name, protocols[0] + "-") then protocols[0]
    else PrefixProtocol(name, protocols[1..])
  }

  /** The first supported protocol whose prefix the name has wins; without one the protocol is http. */
  lemma {:induction false} PrefixProtocolIsFirstMatch(name: string, protocols: seq<string>)
    ensures var r := PrefixProtocol(name, protocols);
      (r == ProtocolHTTP && forall p :: p in protocols ==> !HasPrefix(name, p + "-"))
      || exists i :: 0 <= i < |protocols| && r == protocols[i] && HasPrefix(name, r + "-")
           && forall j :: 0 <= j < i ==> !HasPrefix(name, protocols[j] + "-")
  {
    if protocols != [] && !HasPrefix(name, protocols[0] + "-") {
      var tail := protocols[1..];
      PrefixProtocolIsFirstMatch(name, tail);
      var r := PrefixProtocol(name, tail);
      if exists i :: 0 <= i < |tail| && r == tail[i] && HasPrefix(name, r + "-")
           && forall j :: 0 <= j < i ==> !HasPrefix(name, tail[j] + "-") {
        var i :| 0 <= i < |tail| && r == tail[i] && HasPrefix(name, r + "-")
           && forall j :: 0 <= j < i ==> !HasPrefix(name, tail[j] + "-");
        assert r == protocols[i + 1];
        forall j | 0 <= j < i + 1
          ensures !HasPrefix(name, protocols[j] + "-")
        {
          if j > 0 {
            assert protocols[j] == tail[j - 1];
          }
        }
      } else {
        forall p | p in protocols
          ensures !HasPrefix(name, p + "-")
        {
          if p != protocols[0] {
            assert p in tail;
          }
        }
      }
    }
  }

  /** A "tcp-server-first-" port name is not read as "tcp": the longer prefix is tried first. */
  lemma ServerFirstPrefixWins(rest: string)
    ensures PrefixProtocol(ProtocolTCPServerFirst + "-" + rest, SupportedProtocolsInMesh) == ProtocolTCPServerFirst
  {
    var name := ProtocolTCPServerFirst + "-" + rest;
    assert name[..|ProtocolTCPServerFirst + "-"|] == ProtocolTCPServerFirst + "-";
  }

  /** The preference loop over the supported protocols. */
  method ProtocolFromPortName(name: string) returns (protocol: string)
    ensures protocol == PrefixProtocol(name, SupportedProtocolsInMesh)
  {
    protocol := ProtocolHTTP;
    var protocols := SupportedProtocolsInMesh;
    var i := 0;
    while i < |protocols|
      invariant 0 <= i <= |protocols|
      invariant protocol == ProtocolHTTP
      invariant PrefixProtocol(name, protocols) == PrefixProtocol(name, protocols[i..])
    {
      if HasPrefix(name, protocols[i] + "-") {
        protocol := protocols[i];
        break;
      }
      assert protocols[i..][1..] == protocols[i + 1..];
      i := i + 1;
    }
  }

  /** The protocol of a service port: its appProtocol when set, else the one its name implies. */
  function PortProtocol(p: ServicePort): string {
    p.appProtocol.GetOr(PrefixProtocol(p.name, SupportedProtocolsInMesh))
  }

  /** The port-level mesh service for a service port, before its TargetPort is known. */
  function PortMeshService(svc: Service, p: ServicePort): MeshService {
    MeshService(svc.namespace, svc.name, ToU16(p.port), 0, PortProtocol(p), svc.uid)
  }

  /** One mesh service per endpoint port, with that port as TargetPort. */
  function PortTargets(m: MeshService, ports: seq<EndpointPort>): seq<MeshService> {
    if ports == [] then []
    else PortTargets(m, ports[..|ports| - 1]) + [m.(targetPort := ToU16(ports[|ports| - 1].port))]
  }

  function SubsetTargets(m: MeshService, subsets: seq<EndpointSubset>): seq<MeshService> {
    if subsets == [] then []
    else SubsetTargets(m, subsets[..|subsets| - 1]) + PortTargets(m, subsets[|subsets| - 1].ports)
  }

  /** The mesh services of the given service ports; a port whose Endpoints lookup fails gives none. */
  function PortsMeshServices(ctl: Controller, svc: Service, ports: seq<ServicePort>): seq<MeshService> {
    if ports == [] then []
    else
      var m := PortMeshService(svc, ports[|ports| - 1]);
      PortsMeshServices(ctl, svc, ports[..|ports| - 1])
      + match ctl.getEndpoints(m)
        case None => []
        case Some(eps) => SubsetTargets(m, eps.subsets)
  }

  /** The loops over the subsets and their ports that give one mesh service per endpoint port. */
  method AppendSubsetTargets(meshSvc: MeshService, subsets: seq<EndpointSubset>) returns (targets: seq<MeshService>)
    ensures targets == SubsetTargets(meshSvc, subsets)
  {
    targets := [];
    for j := 0 to |subsets|
      invariant targets == SubsetTargets(meshSvc, subsets[..j])
    {
      var subset := subsets[j];
      assert subsets[..j + 1][..j] == subsets[..j];
      ghost var before := targets;
      for k := 0 to |subset.ports|
        invariant targets == before + PortTargets(meshSvc, subset.ports[..k])
      {
        assert subset.ports[..k + 1][..k] == subset.ports[..k];
        targets := targets + [MeshService(meshSvc.namespace, meshSvc.name, meshSvc.port,
                                          ToU16(subset.ports[k].port), meshSvc.protocol, meshSvc.serviceImportUID)];
      }
      assert subset.ports[..|subset.ports|] == subset.ports;
    }
    assert subsets[..|subsets|] == subsets;
  }

  method ServiceToMeshServices(ctl: Controller, svc: Service) returns (meshServices: seq<MeshService>)
    ensures meshServices == PortsMeshServices(ctl, svc, svc.ports)
  {
    meshServices := [];
    for i := 0 to |svc.ports|
      invariant meshServices == PortsMeshServices(ctl, svc, svc.ports[..i])
    {
      var portSpec := svc.ports[i];
      assert svc.ports[..i + 1][..i] == svc.ports[..i];
      var protocol := ProtocolFromPortName(portSpec.name);
      var meshSvc := MeshService(svc.namespace, svc.name, ToU16(portSpec.port), 0, portSpec.appProtocol.GetOr(protocol), svc.uid);
      var endpoints := ctl.getEndpoints(meshSvc);
      if endpoints.None? {
        continue;
      }
      var targets := AppendSubsetTargets(meshSvc, endpoints.value.subsets);
      meshServices := meshServices + targets;
    }
    assert svc.ports[..|svc.ports|] == svc.ports;
  }

  lemma {:induction false} PortTargetsShape(m: MeshService, ports: seq<EndpointPort>, t: MeshService)
    requires t in PortTargets(m, ports)
    ensures t == m.(targetPort := t.targetPort)
    ensures exists p :: p in ports && t.targetPort == ToU16(p.port)
    decreases |ports|
  {
    if t !in PortTargets(m, ports[..|ports| - 1]) {
      assert ports[|ports| - 1] in ports;
    } else {
      PortTargetsShape(m, ports[..|ports| - 1], t);
      var p :| p in ports[..|ports| - 1] && t.targetPort == ToU16(p.port);
      assert p in ports;
    }
  }

  lemma {:induction false} SubsetTargetsShape(m: MeshService, subsets: seq<EndpointSubset>, t: MeshService)
    requires t in SubsetTargets(m, subsets)
    ensures t == m.(targetPort := t.targetPort)
    decreases |subsets|
  {
    if t in SubsetTargets(m, subsets[..|subsets| - 1]) {
      SubsetTargetsShape(m, subsets[..|subsets| - 1], t);
    } else {
      PortTargetsShape(m, subsets[|subsets| - 1].ports, t);
    }
  }

  /**
   * Every mesh service of a Kubernetes service keeps its namespace, name and UID and takes
   * its port (truncated to 16 bits) and protocol from one of the service's ports.
   */
  lemma {:induction false} MeshServicesFromServicePorts(ctl: Controller, svc: Service, ports: seq<ServicePort>, t: MeshService)
    requires t in PortsMeshServices(ctl, svc, ports)
    ensures t.namespace == svc.namespace && t.name == svc.name && t.serviceImportUID == svc.uid
    ensures exists p :: p in ports && t.port == ToU16(p.port) && t.protocol == PortProtocol(p)
    decreases |ports|
  {
    var init := ports[..|ports| - 1];
    var last := ports[|ports| - 1];
    if t in PortsMeshServices(ctl, svc, init) {
      MeshServicesFromServicePorts(ctl, svc, init, t);
      var p :| p in init && t.port == ToU16(p.port) && t.protocol == PortProtocol(p);
      assert p in ports;
    } else {
      var m := PortMeshService(svc, last);
      var eps := ctl.getEndpoints(m).value;
      SubsetTargetsShape(m, eps.subsets, t);
      assert last in ports;
    }
  }

  /** The mesh services of every watched service, in order. */
  function AllMeshServices(ctl: Controller, services: seq<Service>): seq<MeshService> {
    if services == [] then []
    else AllMeshServices(ctl, services[..|services| - 1]) + PortsMeshServices(ctl, services[|services| - 1], services[|services| - 1].ports)
  }

  method ListServices(c: Client) returns (services: seq<MeshService>)
    ensures services == AllMeshServices(c.controller, c.controller.listServices)
  {
    services := [];
    var watched := c.controller.listServices;
    for i := 0 to |watched|
      invariant services == AllMeshServices(c.controller, watched[..i])
    {
      assert watched[..i + 1][..i] == watched[..i];
      var meshServices := ServiceToMeshServices(c.controller, watched[i]);
      services := services + meshServices;
    }
    assert watched[..|watched|] == watched;
  }
}
