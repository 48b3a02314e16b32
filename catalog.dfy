/**
 * The mesh catalog's aggregation over its providers (catalog/service.go and
 * catalog/endpoint.go): ordered concatenation of provider results, and the federated
 * filter that keeps another provider's service only when a multicluster service of the
 * same name and namespace exists.
 */
module Catalog {
  import opened Mesh
  import K8s
  import FsmProvider
  import KubeProvider

  /** What the catalog asks a service provider. */
  datatype ServiceProvider = ServiceProvider(id: string, listServices: seq<MeshService>,
                                             listServiceIdentities: MeshService -> seq<ServiceIdentity>)

  /** What the catalog asks an endpoints provider. */
  datatype EndpointsProvider = EndpointsProvider(id: string,
                                                 listEndpoints: MeshService -> seq<Endpoint>,
                                                 resolvableEndpoints: MeshService -> seq<Endpoint>,
                                                 endpointsForIdentity: ServiceIdentity -> seq<Endpoint>)

  datatype MeshCatalog = MeshCatalog(serviceProviders: seq<ServiceProvider>, endpointsProviders: seq<EndpointsProvider>)

  /** The multicluster provider as an endpoints provider. */
  function FsmEndpointsProvider(c: FsmProvider.Client, forIdentity: ServiceIdentity -> seq<Endpoint>): EndpointsProvider {
    EndpointsProvider(FsmProvider.ProviderName,
                      svc => K8s.ListedEndpoints(c.controller, c.net, FsmProvider.FsmEndpoint, svc),
                      svc => K8s.ResolvableEndpoints(c.controller, c.net, FsmProvider.FsmEndpoint, FsmProvider.ProviderName, svc),
                      forIdentity)
  }

  /** The Kubernetes provider as an endpoints provider. */
  function KubeEndpointsProvider(c: KubeProvider.Client, forIdentity: ServiceIdentity -> seq<Endpoint>): EndpointsProvider {
    EndpointsProvider(KubeProvider.ProviderName,
                      svc => K8s.ListedEndpoints(c.controller, c.net, KubeProvider.KubeEndpoint, svc),
                      svc => K8s.ResolvableEndpoints(c.controller, c.net, KubeProvider.KubeEndpoint, "", svc),
                      forIdentity)
  }

  /** The concatenation of a sequence of sequences, in order. */
  function Flatten<T>(xss: seq<seq<T>>): seq<T> {
    if xss == [] then [] else Flatten(xss[..|xss| - 1]) + xss[|xss| - 1]
  }

  /** An element is in the concatenation exactly when it is in one of the parts. */
  lemma {:induction false} FlattenMembership<T>(xss: seq<seq<T>>, x: T)
    ensures x in Flatten(xss) <==> exists i :: 0 <= i < |xss| && x in xss[i]
    decreases |xss|
  {
    if xss != [] {
      var init := xss[..|xss| - 1];
      FlattenMembership(init, x);
      if x in Flatten(init) {
        var i :| 0 <= i < |init| && x in init[i];
        assert xss[i] == init[i];
      }
      if exists i :: 0 <= i < |xss| && x in xss[i] {
        var i :| 0 <= i < |xss| && x in xss[i];
        if i < |xss| - 1 {
          assert init[i] == xss[i];
        }
      }
    }
  }

  /** Parts that are empty contribute nothing: dropping them leaves the concatenation unchanged. */
  lemma {:induction false} FlattenAppendEmpty<T>(xss: seq<seq<T>>)
    ensures Flatten(xss + [[]]) == Flatten(xss)
  {
    assert (xss + [[]])[..|xss|] == xss;
  }

  lemma {:induction false} FlattenAppend<T>(xss: seq<seq<T>>, xs: seq<T>)
    ensures Flatten(xss + [xs]) == Flatten(xss) + xs
  {
    assert (xss + [xs])[..|xss|] == xss;
  }

  // ---- service.go ----

  function IdentitiesPerProvider(ps: seq<ServiceProvider>, svc: MeshService): (r: seq<seq<ServiceIdentity>>)
    ensures |r| == |ps| && forall i :: 0 <= i < |ps| ==> r[i] == ps[i].listServiceIdentities(svc)
  {
    seq(|ps|, i requires 0 <= i < |ps| => ps[i].listServiceIdentities(svc))
  }

  /** The identities of every provider, in provider order. */
  method ListServiceIdentitiesForService(mc: MeshCatalog, svc: MeshService) returns (serviceIdentities: seq<ServiceIdentity>)
    ensures serviceIdentities == Flatten(IdentitiesPerProvider(mc.serviceProviders, svc))
  {
    serviceIdentities := [];
    var ps := mc.serviceProviders;
    for i := 0 to |ps|
      invariant serviceIdentities == Flatten(IdentitiesPerProvider(ps, svc)[..i])
    {
      var serviceIDs := ps[i].listServiceIdentities(svc);
      FlattenAppend(IdentitiesPerProvider(ps, svc)[..i], serviceIDs);
      assert IdentitiesPerProvider(ps, svc)[..i + 1] == IdentitiesPerProvider(ps, svc)[..i] + [serviceIDs];
      serviceIdentities := serviceIdentities + serviceIDs;
    }
    assert IdentitiesPerProvider(ps, svc)[..|ps|] == IdentitiesPerProvider(ps, svc);
  }

  /** The services of the multicluster providers, in provider order. */
  function FlomeshServices(ps: seq<ServiceProvider>): seq<MeshService> {
    if ps == [] then []
    else
      var p := ps[|ps| - 1];
      FlomeshServices(ps[..|ps| - 1]) + (if p.id == FlomeshProviderName then p.listServices else [])
  }

  /** The providers that are not multicluster providers, in order. */
  function OtherProviders(ps: seq<ServiceProvider>): seq<ServiceProvider> {
    if ps == [] then []
    else
      var p := ps[|ps| - 1];
      OtherProviders(ps[..|ps| - 1]) + (if p.id == FlomeshProviderName then [] else [p])
  }

  /** Some multicluster service has the same name and namespace as svc. */
  predicate Federated(svc: MeshService, mcServices: seq<MeshService>) {
    exists m :: m in mcServices && m.name == svc.name && m.namespace == svc.namespace
  }

  /** The services of svcs that are federated, in order, each at most once. */
  function FederatedFilter(svcs: seq<MeshService>, mcServices: seq<MeshService>): seq<MeshService> {
    if svcs == [] then []
    else
      var s := svcs[|svcs| - 1];
      FederatedFilter(svcs[..|svcs| - 1], mcServices) + (if Federated(s, mcServices) then [s] else [])
  }

  function FederatedServices(others: seq<ServiceProvider>, mcServices: seq<MeshService>): seq<MeshService> {
    if others == [] then []
    else FederatedServices(others[..|others| - 1], mcServices) + FederatedFilter(others[|others| - 1].listServices, mcServices)
  }

  /**
   * What listMeshServices returns: the multicluster services, then, only when there are
   * any, the federated services of the other providers.
   */
  function MeshServices(ps: seq<ServiceProvider>): seq<MeshService> {
    var mcServices := FlomeshServices(ps);
    mcServices + (if |mcServices| > 0 then FederatedServices(OtherProviders(ps), mcServices) else [])
  }

  /** The first loop of listMeshServices: the multicluster services, and the other providers set aside. */
  method SplitProviders(ps: seq<ServiceProvider>)
    returns (mcServices: seq<MeshService>, otherProviders: seq<ServiceProvider>, ghost otherIndices: seq<nat>, ghost queried: seq<nat>)
    ensures mcServices == FlomeshServices(ps)
    ensures otherProviders == OtherProviders(ps)
    ensures |otherIndices| == |otherProviders|
    ensures forall k :: 0 <= k < |otherIndices| ==> otherIndices[k] < |ps| && ps[otherIndices[k]] == otherProviders[k]
    ensures forall q :: q in queried ==> q < |ps| && ps[q].id == FlomeshProviderName
  {
    mcServices := [];
    otherProviders := [];
    otherIndices := [];
    queried := [];
    for i := 0 to |ps|
      invariant mcServices == FlomeshServices(ps[..i])
      invariant otherProviders == OtherProviders(ps[..i])
      invariant |otherIndices| == |otherProviders|
      invariant forall k :: 0 <= k < |otherIndices| ==> otherIndices[k] < |ps| && ps[otherIndices[k]] == otherProviders[k]
      invariant forall q :: q in queried ==> q < |ps| && ps[q].id == FlomeshProviderName
    {
      assert ps[..i + 1][..i] == ps[..i];
      var provider := ps[i];
      if provider.id == FlomeshProviderName {
        queried := queried + [i];
        mcServices := mcServices + provider.listServices;
      } else {
        otherProviders := otherProviders + [provider];
        otherIndices := otherIndices + [i];
      }
    }
    assert ps[..|ps|] == ps;
  }

  /** The inner loops of listMeshServices for one other provider: each service once if federated. */
  method KeepFederated(svcs: seq<MeshService>, mcServices: seq<MeshService>) returns (kept: seq<MeshService>)
    ensures kept == FederatedFilter(svcs, mcServices)
  {
    kept := [];
    for j := 0 to |svcs|
      invariant kept == FederatedFilter(svcs[..j], mcServices)
    {
      assert svcs[..j + 1][..j] == svcs[..j];
      var svc := svcs[j];
      ghost var before := kept;
      var k := 0;
      while k < |mcServices|
        invariant 0 <= k <= |mcServices|
        invariant kept == before
        invariant forall k' :: 0 <= k' < k ==> !(svc.name == mcServices[k'].name && svc.namespace == mcServices[k'].namespace)
      {
        if svc.name == mcServices[k].name && svc.namespace == mcServices[k].namespace {
          kept := kept + [svc];
          break;
        }
        k := k + 1;
      }
      assert kept == before + (if Federated(svc, mcServices) then [svc] else []);
    }
    assert svcs[..|svcs|] == svcs;
  }

  /**
   * listMeshServices; queried lists, in order, the indices of the providers whose
   * ListServices was called.
   */
  method ListMeshServices(mc: MeshCatalog) returns (services: seq<MeshService>, ghost queried: seq<nat>)
    ensures services == MeshServices(mc.serviceProviders)
    ensures FlomeshServices(mc.serviceProviders) == [] ==>
      forall q :: q in queried ==> q < |mc.serviceProviders| && mc.serviceProviders[q].id == FlomeshProviderName
  {
    var ps := mc.serviceProviders;
    var mcServices, otherProviders;
    ghost var otherIndices;
    mcServices, otherProviders, otherIndices, queried := SplitProviders(ps);
    services := mcServices;
    if |mcServices| > 0 {
      var federated := AppendFederated(otherProviders, mcServices);
      services := services + federated;
      queried := queried + otherIndices;
    }
  }

  /** The second loop of listMeshServices: the federated services of every other provider, in provider order. */
  method AppendFederated(otherProviders: seq<ServiceProvider>, mcServices: seq<MeshService>) returns (federated: seq<MeshService>)
    ensures federated == FederatedServices(otherProviders, mcServices)
  {
    federated := [];
    for i := 0 to |otherProviders|
      invariant federated == FederatedServices(otherProviders[..i], mcServices)
    {
      assert otherProviders[..i + 1][..i] == otherProviders[..i];
      var kept := KeepFederated(otherProviders[i].listServices, mcServices);
      federated := federated + kept;
    }
    assert otherProviders[..|otherProviders|] == otherProviders;
  }

  lemma {:induction false} FlomeshServicesMembership(ps: seq<ServiceProvider>, s: MeshService)
    ensures s in FlomeshServices(ps) <==> exists i :: 0 <= i < |ps| && ps[i].id == FlomeshProviderName && s in ps[i].listServices
    decreases |ps|
  {
    if ps != [] {
      var init := ps[..|ps| - 1];
      FlomeshServicesMembership(init, s);
      if s in FlomeshServices(init) {
        var i :| 0 <= i < |init| && init[i].id == FlomeshProviderName && s in init[i].listServices;
        assert ps[i] == init[i];
      }
      if exists i :: 0 <= i < |ps| && ps[i].id == FlomeshProviderName && s in ps[i].listServices {
        var i :| 0 <= i < |ps| && ps[i].id == FlomeshProviderName && s in ps[i].listServices;
        if i < |ps| - 1 {
          assert init[i] == ps[i];
        }
      }
    }
  }

  lemma {:induction false} OtherProvidersMembership(ps: seq<ServiceProvider>, p: ServiceProvider)
    ensures p in OtherProviders(ps) <==> p in ps && p.id != FlomeshProviderName
    decreases |ps|
  {
    if ps != [] {
      var init := ps[..|ps| - 1];
      OtherProvidersMembership(init, p);
      assert ps == init + [ps[|ps| - 1]];
    }
  }

  lemma {:induction false} FederatedFilterMembership(svcs: seq<MeshService>, mcServices: seq<MeshService>, s: MeshService)
    ensures s in FederatedFilter(svcs, mcServices) <==> s in svcs && Federated(s, mcServices)
    decreases |svcs|
  {
    if svcs != [] {
      FederatedFilterMembership(svcs[..|svcs| - 1], mcServices, s);
      assert svcs == svcs[..|svcs| - 1] + [svcs[|svcs| - 1]];
    }
  }

  /** Each service of a provider is added at most as often as that provider lists it, however many multicluster services match. */
  lemma {:induction false} FederatedFilterAddsOnce(svcs: seq<MeshService>, mcServices: seq<MeshService>)
    ensures multiset(FederatedFilter(svcs, mcServices)) <= multiset(svcs)
    decreases |svcs|
  {
    if svcs != [] {
      FederatedFilterAddsOnce(svcs[..|svcs| - 1], mcServices);
      assert svcs == svcs[..|svcs| - 1] + [svcs[|svcs| - 1]];
    }
  }

  lemma {:induction false} FederatedServicesMembership(others: seq<ServiceProvider>, mcServices: seq<MeshService>, s: MeshService)
    ensures s in FederatedServices(others, mcServices) <==>
      Federated(s, mcServices) && exists p :: p in others && s in p.listServices
    decreases |others|
  {
    if others != [] {
      var init := others[..|others| - 1];
      var last := others[|others| - 1];
      FederatedServicesMembership(init, mcServices, s);
      FederatedFilterMembership(last.listServices, mcServices, s);
      assert others == init + [last];
      if exists p :: p in others && s in p.listServices {
        var p :| p in others && s in p.listServices;
        assert p in init || p == last;
      }
    }
  }

  /**
   * listMeshServices holds exactly the multicluster services and those services of the
   * other providers that share a name and namespace with some multicluster service.
   */
  lemma MeshServicesMembership(ps: seq<ServiceProvider>, s: MeshService)
    ensures s in MeshServices(ps) <==>
      (exists i :: 0 <= i < |ps| && ps[i].id == FlomeshProviderName && s in ps[i].listServices)
      || (Federated(s, FlomeshServices(ps)) && exists p :: p in ps && p.id != FlomeshProviderName && s in p.listServices)
  {
    var mcServices := FlomeshServices(ps);
    FlomeshServicesMembership(ps, s);
    FederatedServicesMembership(OtherProviders(ps), mcServices, s);
    if exists p :: p in ps && p.id != FlomeshProviderName && s in p.listServices {
      var p :| p in ps && p.id != FlomeshProviderName && s in p.listServices;
      OtherProvidersMembership(ps, p);
    }
    if exists p :: p in OtherProviders(ps) && s in p.listServices {
      var p :| p in OtherProviders(ps) && s in p.listServices;
      OtherProvidersMembership(ps, p);
    }
  }

  /** The multicluster services come first, in provider order. */
  lemma MulticlusterServicesFirst(ps: seq<ServiceProvider>)
    ensures |FlomeshServices(ps)| <= |MeshServices(ps)|
    ensures MeshServices(ps)[..|FlomeshServices(ps)|] == FlomeshServices(ps)
  {
  }

  /** Without any multicluster service the result is empty, whatever the other providers list. */
  lemma NoMulticlusterServicesGivesNone(ps: seq<ServiceProvider>)
    requires FlomeshServices(ps) == []
    ensures MeshServices(ps) == []
  {
  }

  // ---- endpoint.go ----

  function EndpointsPerProvider(ps: seq<EndpointsProvider>, svc: MeshService): (r: seq<seq<Endpoint>>)
    ensures |r| == |ps| && forall i :: 0 <= i < |ps| ==> r[i] == ps[i].listEndpoints(svc)
  {
    seq(|ps|, i requires 0 <= i < |ps| => ps[i].listEndpoints(svc))
  }

  function ResolvablePerProvider(ps: seq<EndpointsProvider>, svc: MeshService): (r: seq<seq<Endpoint>>)
    ensures |r| == |ps| && forall i :: 0 <= i < |ps| ==> r[i] == ps[i].resolvableEndpoints(svc)
  {
    seq(|ps|, i requires 0 <= i < |ps| => ps[i].resolvableEndpoints(svc))
  }

  function IdentityEndpointsPerProvider(ps: seq<EndpointsProvider>, id: ServiceIdentity): (r: seq<seq<Endpoint>>)
    ensures |r| == |ps| && forall i :: 0 <= i < |ps| ==> r[i] == ps[i].endpointsForIdentity(id)
  {
    seq(|ps|, i requires 0 <= i < |ps| => ps[i].endpointsForIdentity(id))
  }

  /** listEndpointsForService: the providers' endpoints in provider order; empty results are skipped. */
  method ListEndpointsForService(mc: MeshCatalog, svc: MeshService) returns (endpoints: seq<Endpoint>)
    ensures endpoints == Flatten(EndpointsPerProvider(mc.endpointsProviders, svc))
  {
    endpoints := [];
    var ps := mc.endpointsProviders;
    ghost var parts := EndpointsPerProvider(ps, svc);
    for i := 0 to |ps|
      invariant endpoints == Flatten(parts[..i])
    {
      var ep := ps[i].listEndpoints(svc);
      assert parts[..i + 1] == parts[..i] + [ep];
      FlattenAppend(parts[..i], ep);
      if |ep| == 0 {
        continue;
      }
      endpoints := endpoints + ep;
    }
    assert parts[..|ps|] == parts;
  }

  /** getDNSResolvableServiceEndpoints: the providers' resolvable endpoints in provider order. */
  method GetDNSResolvableServiceEndpoints(mc: MeshCatalog, svc: MeshService) returns (endpoints: seq<Endpoint>)
    ensures endpoints == Flatten(ResolvablePerProvider(mc.endpointsProviders, svc))
  {
    endpoints := [];
    var ps := mc.endpointsProviders;
    ghost var parts := ResolvablePerProvider(ps, svc);
    for i := 0 to |ps|
      invariant endpoints == Flatten(parts[..i])
    {
      var ep := ps[i].resolvableEndpoints(svc);
      assert parts[..i + 1] == parts[..i] + [ep];
      FlattenAppend(parts[..i], ep);
      endpoints := endpoints + ep;
    }
    assert parts[..|ps|] == parts;
  }

  /**
   * ListUpstreamEndpointsForService: the listed endpoints unchanged (nil and the empty
   * list are the same value here).
   */
  method ListUpstreamEndpointsForService(mc: MeshCatalog, upstreamSvc: MeshService) returns (endpoints: seq<Endpoint>)
    ensures endpoints == Flatten(EndpointsPerProvider(mc.endpointsProviders, upstreamSvc))
  {
    var outboundEndpoints := ListEndpointsForService(mc, upstreamSvc);
    if |outboundEndpoints| == 0 {
      return [];
    }
    return outboundEndpoints;
  }

  /** listEndpointsForServiceIdentity: the providers' endpoints for the identity in provider order. */
  method ListEndpointsForServiceIdentity(mc: MeshCatalog, id: ServiceIdentity) returns (endpoints: seq<Endpoint>)
    ensures endpoints == Flatten(IdentityEndpointsPerProvider(mc.endpointsProviders, id))
  {
    endpoints := [];
    var ps := mc.endpointsProviders;
    ghost var parts := IdentityEndpointsPerProvider(ps, id);
    for i := 0 to |ps|
      invariant endpoints == Flatten(parts[..i])
    {
      var ep := ps[i].endpointsForIdentity(id);
      assert parts[..i + 1] == parts[..i] + [ep];
      FlattenAppend(parts[..i], ep);
      if |ep| == 0 {
        continue;
      }
      endpoints := endpoints + ep;
    }
    assert parts[..|ps|] == parts;
  }

  /**
   * An upstream endpoint of a catalog made of a multicluster and a Kubernetes provider is
   * listed by one of the two, and one from the multicluster provider matches the TargetPort.
   */
  lemma UpstreamEndpointsFromProviders(fsm: FsmProvider.Client, kube: KubeProvider.Client,
                                       fsmIdentity: ServiceIdentity -> seq<Endpoint>, kubeIdentity: ServiceIdentity -> seq<Endpoint>,
                                       svc: MeshService, e: Endpoint)
    requires e in Flatten(EndpointsPerProvider([FsmEndpointsProvider(fsm, fsmIdentity), KubeEndpointsProvider(kube, kubeIdentity)], svc))
    ensures e in K8s.ListedEndpoints(fsm.controller, fsm.net, FsmProvider.FsmEndpoint, svc)
         || e in K8s.ListedEndpoints(kube.controller, kube.net, KubeProvider.KubeEndpoint, svc)
    ensures svc.targetPort != 0 && e !in K8s.ListedEndpoints(kube.controller, kube.net, KubeProvider.KubeEndpoint, svc) ==> e.port == svc.targetPort
  {
    var ps := [FsmEndpointsProvider(fsm, fsmIdentity), KubeEndpointsProvider(kube, kubeIdentity)];
    FlattenMembership(EndpointsPerProvider(ps, svc), e);
    if e !in K8s.ListedEndpoints(kube.controller, kube.net, KubeProvider.KubeEndpoint, svc) {
      FsmProvider.ListedEndpointFromAnnotations(fsm, svc, e);
    }
  }
}
