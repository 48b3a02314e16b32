/**
 * The Kubernetes service provider (service/providers/kube/client.go): endpoints carry only
 * address and port, resolvable endpoints carry no cluster key, and services are translated
 * by k8s.ServiceToMeshServices, which is not part of this model and is a parameter here.
 */
module KubeProvider {
  import opened Wrappers
  import opened Mesh
  import opened K8s

  datatype Client = Client(controller: Controller, net: NetHelpers, toMeshServices: Service -> seq<MeshService>)

  /** GetID */
  const ProviderName := KubernetesProviderName

  /** A plain Kubernetes endpoint: the parsed IP and the port, nothing else. */
  function KubeEndpoint(eps: Endpoints): Builder {
    (a: EndpointAddress, p: EndpointPort, ip: string) => Endpoint(ip, p.port, "", "", 0, "")
  }

  method ListEndpointsForService(c: Client, svc: MeshService) returns (endpoints: seq<Endpoint>)
    ensures endpoints == ListedEndpoints(c.controller, c.net, KubeEndpoint, svc)
  {
    var kubernetesEndpoints := c.controller.getEndpoints(svc);
    if kubernetesEndpoints.None? {
      return [];
    }
    endpoints := CollectEndpoints(svc, c.net, KubeEndpoint(kubernetesEndpoints.value), kubernetesEndpoints.value.subsets);
  }

  /**
   * An endpoint is listed exactly when some subset has a port that matches the TargetPort
   * (if known) and an address whose IP parses to the endpoint's IP and whose hostname fits
   * the subdomain; Kubernetes endpoints carry no cluster key, weight or path.
   */
  lemma ListedEndpointsExactly(c: Client, svc: MeshService, eps: Endpoints, e: Endpoint)
    requires c.controller.getEndpoints(svc) == Some(eps)
    ensures e in ListedEndpoints(c.controller, c.net, KubeEndpoint, svc) <==>
      e.clusterKey == "" && e.lbType == "" && e.weight == 0 && e.path == ""
      && exists i, j, k :: 0 <= i < |eps.subsets| && 0 <= j < |eps.subsets[i].ports| && 0 <= k < |eps.subsets[i].addresses|
           && PortSelected(svc, eps.subsets[i].ports[j]) && AddressSelected(svc, c.net, eps.subsets[i].addresses[k])
           && e.port == eps.subsets[i].ports[j].port && e.ip == c.net.parseIP(eps.subsets[i].addresses[k].ip).value
  {
    SubsetEndpointsMembership(svc, c.net, KubeEndpoint(eps), eps.subsets, e);
  }

  method GetResolvableEndpointsForService(c: Client, svc: MeshService) returns (endpoints: seq<Endpoint>)
    ensures endpoints == ResolvableEndpoints(c.controller, c.net, KubeEndpoint, "", svc)
  {
    var kubeService := c.controller.getService(svc);
    if kubeService.None? {
      return [];
    }
    if |kubeService.value.clusterIP| == 0 || kubeService.value.clusterIP == ClusterIPNone {
      endpoints := ListEndpointsForService(c, svc);
      return;
    }
    var ip := c.net.parseIP(kubeService.value.clusterIP);
    if ip.None? {
      return [];
    }
    endpoints := AppendClusterIPEndpoints(ip.value, kubeService.value.ports, "");
  }

  /** A headless service resolves to its listed endpoints. */
  lemma HeadlessResolvesToEndpoints(c: Client, svc: MeshService, k: Service)
    requires c.controller.getService(svc) == Some(k)
    requires |k.clusterIP| == 0 || k.clusterIP == ClusterIPNone
    ensures ResolvableEndpoints(c.controller, c.net, KubeEndpoint, "", svc) == ListedEndpoints(c.controller, c.net, KubeEndpoint, svc)
  {
  }

  function AllMeshServices(c: Client, services: seq<Service>): seq<MeshService> {
    if services == [] then []
    else AllMeshServices(c, services[..|services| - 1]) + c.toMeshServices(services[|services| - 1])
  }

  method ListServices(c: Client) returns (services: seq<MeshService>)
    ensures services == AllMeshServices(c, c.controller.listServices)
  {
    services := [];
    var watched := c.controller.listServices;
    for i := 0 to |watched|
      invariant services == AllMeshServices(c, watched[..i])
    {
      assert watched[..i + 1][..i] == watched[..i];
      services := services + c.toMeshServices(watched[i]);
    }
    assert watched[..|watched|] == watched;
  }
}
