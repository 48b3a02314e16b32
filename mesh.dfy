/**
 * Service-level values shared by the catalog, the providers and the configuration
 * compiler: mesh services, endpoints and weighted clusters, with the protocol and
 * provider-name constants.
 */
module Mesh {
  import opened Bytes

  const ProtocolHTTP := "http"
  const ProtocolHTTPS := "https"
  const ProtocolTCP := "tcp"
  const ProtocolGRPC := "grpc"
  const ProtocolTCPServerFirst := "tcp-server-first"

  /** constants.SupportedProtocolsInMesh, in its order of preference. */
  const SupportedProtocolsInMesh: seq<string> := [ProtocolTCPServerFirst, ProtocolHTTP, ProtocolTCP, ProtocolGRPC]

  /** The identifier of the multicluster (Flomesh) provider. */
  const FlomeshProviderName := "flomesh"
  /** The identifier of the Kubernetes provider. */
  const KubernetesProviderName := "kubernetes"

  /** service.MeshService: one port of a service; TargetPort 0 means "not known". */
  datatype MeshService = MeshService(namespace: string, name: string, port: U16, targetPort: U16,
                                     protocol: string, serviceImportUID: string)

  /** endpoint.Endpoint; ip is the text form of the parsed address. */
  datatype Endpoint = Endpoint(ip: string, port: int, clusterKey: string, lbType: string, weight: U32, path: string)

  /** service.WeightedCluster: a cluster name ("<namespace>/<name>|<port>") and its weight. */
  datatype WeightedCluster = WeightedCluster(clusterName: string, weight: int)

  /** identity.ServiceIdentity */
  type ServiceIdentity = string
}
