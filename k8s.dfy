/**
 * The Kubernetes objects the two service providers read (core/v1 Endpoints and Service),
 * the controller lookups they call, and the endpoint listing loop both providers share
 * (service/providers/fsm/client.go and service/providers/kube/client.go).
 */
module K8s {
  import opened Wrappers
  import opened Bytes
  import opened Mesh

  datatype EndpointAddress = EndpointAddress(ip: string, hostname: string)
  datatype EndpointPort = EndpointPort(name: string, port: int)
  datatype EndpointSubset = EndpointSubset(addresses: seq<EndpointAddress>, ports: seq<EndpointPort>)

  /** The four per-address annotations of a multicluster service import. */
  datatype AnnotationKind = LBWeight | ClusterKey | LBType | ContextPath
  /** The key fmt.Sprintf(<annotation format>, ip, port) for one address and port. */
  datatype AnnotationKey = AnnotationKey(kind: AnnotationKind, ip: string, port: int)

  datatype Endpoints = Endpoints(subsets: seq<EndpointSubset>, annotations: map<AnnotationKey, string>)

  datatype ServicePort = ServicePort(name: string, port: int, appProtocol: Option<string>)
  datatype Service = Service(namespace: string, name: string, uid: string, clusterIP: string, ports: seq<ServicePort>)

  /** corev1.ClusterIPNone */
  const ClusterIPNone := "None"

  /** A Go map read: the empty string when the annotation is absent. */
  function Annotation(eps: Endpoints, key: AnnotationKey): string {
    if key in eps.annotations then eps.annotations[key] else ""
  }

  /**
   * What a provider asks its controller: the Endpoints and the Service behind a mesh
   * service (None for an error or a missing object) and the services it watches.
   */
  datatype Controller = Controller(getEndpoints: MeshService -> Option<Endpoints>,
                                   getService: MeshService -> Option<Service>,
                                   listServices: seq<Service>)

  /**
   * net.ParseIP followed by IP.String(), and MeshService.Subdomain(); both live outside
   * the modelled files.
   */
  datatype NetHelpers = NetHelpers(parseIP: string -> Option<string>, subdomain: MeshService -> string)

  /** An endpoint port is kept when the service's TargetPort is unknown (0) or equal to it. */
  predicate PortSelected(svc: MeshService, p: EndpointPort) {
    !(svc.targetPort != 0 && p.port != svc.targetPort)
  }

  /** An address is kept when the subdomain (if any) names its host and its IP parses. */
  predicate AddressSelected(svc: MeshService, h: NetHelpers, a: EndpointAddress) {
    !(h.subdomain(svc) != "" && h.subdomain(svc) != a.hostname) && h.parseIP(a.ip).Some?
  }

  /** How a provider turns a kept address, port and parsed IP into an endpoint. */
  type Builder = (EndpointAddress, EndpointPort, string) -> Endpoint

  function AddressEndpoints(svc: MeshService, h: NetHelpers, build: Builder, p: EndpointPort,
                            addrs: seq<EndpointAddress>): seq<Endpoint>
  {
    if addrs == [] then []
    else
      var a := addrs[|addrs| - 1];
      AddressEndpoints(svc, h, build, p, addrs[..|addrs| - 1])
      + (if AddressSelected(svc, h, a) then [build(a, p, h.parseIP(a.ip).value)] else [])
  }

  function PortEndpoints(svc: MeshService, h: NetHelpers, build: Builder, addrs: seq<EndpointAddress>,
                         ports: seq<EndpointPort>): seq<Endpoint>
  {
    if ports == [] then []
    else
      var p := ports[|ports| - 1];
      PortEndpoints(svc, h, build, addrs, ports[..|ports| - 1])
      + (if PortSelected(svc, p) then AddressEndpoints(svc, h, build, p, addrs) else [])
  }

  /** The endpoints of all subsets: subset by subset, port by port, address by address. */
  function SubsetEndpoints(svc: MeshService, h: NetHelpers, build: Builder, subsets: seq<EndpointSubset>): seq<Endpoint>
  {
    if subsets == [] then []
    else
      var s := subsets[|subsets| - 1];
      SubsetEndpoints(svc, h, build, subsets[..|subsets| - 1]) + PortEndpoints(svc, h, build, s.addresses, s.ports)
  }

  /** e is built from some kept port and kept address of one subset. */
  predicate Produces(svc: MeshService, h: NetHelpers, build: Builder, subsets: seq<EndpointSubset>, e: Endpoint) {
    exists i :: 0 <= i < |subsets| && ProducedBy(svc, h, build, subsets[i].addresses, subsets[i].ports, e)
  }

  /** e is built from some kept port and kept address of one subset's lists. */
  predicate ProducedBy(svc: MeshService, h: NetHelpers, build: Builder, addrs: seq<EndpointAddress>,
                       ports: seq<EndpointPort>, e: Endpoint) {
    exists j, k :: 0 <= j < |ports| && 0 <= k < |addrs| && PortSelected(svc, ports[j]) && AddressSelected(svc, h, addrs[k])
      && e == build(addrs[k], ports[j], h.parseIP(addrs[k].ip).value)
  }

  lemma {:induction false} AddressEndpointsMembership(svc: MeshService, h: NetHelpers, build: Builder, p: EndpointPort,
                                                      addrs: seq<EndpointAddress>, e: Endpoint)
    ensures e in AddressEndpoints(svc, h, build, p, addrs) <==>
      exists k :: 0 <= k < |addrs| && AddressSelected(svc, h, addrs[k]) && e == build(addrs[k], p, h.parseIP(addrs[k].ip).value)
    decreases |addrs|
  {
    if addrs != [] {
      var init := addrs[..|addrs| - 1];
      AddressEndpointsMembership(svc, h, build, p, init, e);
      if e in AddressEndpoints(svc, h, build, p, init) {
        var k :| 0 <= k < |init| && AddressSelected(svc, h, init[k]) && e == build(init[k], p, h.parseIP(init[k].ip).value);
        assert addrs[k] == init[k];
      }
      forall k | 0 <= k < |addrs| - 1
        ensures addrs[k] == init[k]
      {
      }
    }
  }

  lemma {:induction false} PortEndpointsMembership(svc: MeshService, h: NetHelpers, build: Builder, addrs: seq<EndpointAddress>,
                                                   ports: seq<EndpointPort>, e: Endpoint)
    ensures e in PortEndpoints(svc, h, build, addrs, ports) <==> ProducedBy(svc, h, build, addrs, ports, e)
    decreases |ports|
  {
    if ports != [] {
      var init := ports[..|ports| - 1];
      var p := ports[|ports| - 1];
      PortEndpointsMembership(svc, h, build, addrs, init, e);
      AddressEndpointsMembership(svc, h, build, p, addrs, e);
      if e in PortEndpoints(svc, h, build, addrs, init) {
        var j, k :| 0 <= j < |init| && 0 <= k < |addrs| && PortSelected(svc, init[j]) && AddressSelected(svc, h, addrs[k])
          && e == build(addrs[k], init[j], h.parseIP(addrs[k].ip).value);
        assert ports[j] == init[j];
      }
      forall j | 0 <= j < |ports| - 1
        ensures ports[j] == init[j]
      {
      }
    }
  }

  /** An endpoint is listed exactly when it is built from a kept port and a kept address of some subset. */
  lemma {:induction false} SubsetEndpointsMembership(svc: MeshService, h: NetHelpers, build: Builder,
                                                     subsets: seq<EndpointSubset>, e: Endpoint)
    ensures e in SubsetEndpoints(svc, h, build, subsets) <==> Produces(svc, h, build, subsets, e)
    decreases |subsets|
  {
    if subsets != [] {
      var init := subsets[..|subsets| - 1];
      var s := subsets[|subsets| - 1];
      SubsetEndpointsMembership(svc, h, build, init, e);
      PortEndpointsMembership(svc, h, build, s.addresses, s.ports, e);
      if e in SubsetEndpoints(svc, h, build, init) {
        var i :| 0 <= i < |init| && ProducedBy(svc, h, build, init[i].addresses, init[i].ports, e);
        assert subsets[i] == init[i];
      } else if e in PortEndpoints(svc, h, build, s.addresses, s.ports) {
        assert subsets[|subsets| - 1] == s;
      }
      if Produces(svc, h, build, subsets, e) {
        var i :| 0 <= i < |subsets| && ProducedBy(svc, h, build, subsets[i].addresses, subsets[i].ports, e);
        if i < |subsets| - 1 {
          assert subsets[i] == init[i];
        }
      }
    }
  }

  /** The listing loop of ListEndpointsForService (both providers): subsets, then ports, then addresses. */
  method CollectEndpoints(svc: MeshService, h: NetHelpers, build: Builder, subsets: seq<EndpointSubset>)
    returns (endpoints: seq<Endpoint>)
    ensures endpoints == SubsetEndpoints(svc, h, build, subsets)
  {
    endpoints := [];
    for i := 0 to |subsets|
      invariant endpoints == SubsetEndpoints(svc, h, build, subsets[..i])
    {
      var subset := subsets[i];
      for j := 0 to |subset.ports|
        invariant endpoints == SubsetEndpoints(svc, h, build, subsets[..i])
                               + PortEndpoints(svc, h, build, subset.addresses, subset.ports[..j])
      {
        var port := subset.ports[j];
        assert subset.ports[..j + 1][..j] == subset.ports[..j];
        if svc.targetPort != 0 && port.port != svc.targetPort {
          continue;
        }
        ghost var before := endpoints;
        for k := 0 to |subset.addresses|
          invariant endpoints == before + AddressEndpoints(svc, h, build, port, subset.addresses[..k])
        {
          var address := subset.addresses[k];
          assert subset.addresses[..k + 1][..k] == subset.addresses[..k];
          if h.subdomain(svc) != "" && h.subdomain(svc) != address.hostname {
            continue;
          }
          var ip := h.parseIP(address.ip);
          if ip.None? {
            continue;
          }
          endpoints := endpoints + [build(address, port, ip.value)];
        }
        assert subset.addresses[..|subset.addresses|] == subset.addresses;
      }
      assert subsets[..i + 1][..i] == subsets[..i];
      assert subset.ports[..|subset.ports|] == subset.ports;
    }
    assert subsets[..|subsets|] == subsets;
  }

  /** What ListEndpointsForService returns: nothing when the Endpoints lookup fails. */
  function ListedEndpoints(ctl: Controller, h: NetHelpers, mkBuild: Endpoints -> Builder, svc: MeshService): seq<Endpoint> {
    match ctl.getEndpoints(svc)
    case None => []
    case Some(eps) => SubsetEndpoints(svc, h, mkBuild(eps), eps.subsets)
  }

  /** One endpoint per service port, all at the cluster IP. */
  function ClusterIPEndpoints(ip: string, ports: seq<ServicePort>, clusterKey: string): (r: seq<Endpoint>)
    ensures |r| == |ports|
    ensures forall i :: 0 <= i < |ports| ==> r[i] == Endpoint(ip, ports[i].port, clusterKey, "", 0, "")
  {
    if ports == [] then []
    else ClusterIPEndpoints(ip, ports[..|ports| - 1], clusterKey) + [Endpoint(ip, ports[|ports| - 1].port, clusterKey, "", 0, "")]
  }

  /**
   * What GetResolvableEndpointsForService returns: nothing without a Service; the listed
   * endpoints for a headless service (no cluster IP, or "None"); nothing when the cluster
   * IP does not parse; otherwise one endpoint per service port at the cluster IP.
   */
  function ResolvableEndpoints(ctl: Controller, h: NetHelpers, mkBuild: Endpoints -> Builder, clusterKey: string,
                               svc: MeshService): seq<Endpoint>
  {
    match ctl.getService(svc)
    case None => []
    case Some(k) =>
      if |k.clusterIP| == 0 || k.clusterIP == ClusterIPNone then ListedEndpoints(ctl, h, mkBuild, svc)
      else match h.parseIP(k.clusterIP)
        case None => []
        case Some(ip) => ClusterIPEndpoints(ip, k.ports, clusterKey)
  }

  /** The loop over the service ports for a service with a cluster IP. */
  method AppendClusterIPEndpoints(ip: string, ports: seq<ServicePort>, clusterKey: string) returns (endpoints: seq<Endpoint>)
    ensures endpoints == ClusterIPEndpoints(ip, ports, clusterKey)
  {
    endpoints := [];
    for i := 0 to |ports|
      invariant endpoints == ClusterIPEndpoints(ip, ports[..i], clusterKey)
    {
      assert ports[..i + 1][..i] == ports[..i];
      endpoints := endpoints + [Endpoint(ip, ports[i].port, clusterKey, "", 0, "")];
    }
    assert ports[..|ports|] == ports;
  }
}
