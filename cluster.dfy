/** The Kubernetes objects the scripts read, holding only the fields they
    read. What the cluster API returns is given to the model as values of
    these types. */
module Cluster {
  import opened Wrappers

  /** A container of a pod spec. `args` is None when the manifest sets no
      `args` (a manifest may give the whole command line in `command`
      instead); `limits` is None when its resources block sets no limits,
      and an empty map when it sets an empty one. */
  datatype Container = Container(
    name: string,
    args: Option<seq<string>>,
    limits: Option<map<string, string>>)

  /** A pod: `metadata.namespace`, `metadata.name`, `status.phase` and
      `spec.containers`. */
  datatype Pod = Pod(
    namespace: string,
    name: string,
    phase: Option<string>,
    containers: seq<Container>)

  /** One entry of `status.addresses` of a node: its `type` and `address`. */
  datatype NodeAddress = NodeAddress(addressType: string, address: string)

  /** A node: `metadata.name`, `status.addresses`, the kubelet and container
      runtime versions of `status.node_info`, and `status.allocatable`.
      `addresses` is None when the node reports none: the client leaves an
      absent list as None. */
  datatype Node = Node(
    name: string,
    addresses: Option<seq<NodeAddress>>,
    kubeletVersion: string,
    containerRuntimeVersion: string,
    allocatable: Option<map<string, string>>)

  /** One entry of `status.load_balancer.ingress` of a service. */
  datatype Ingress = Ingress(hostname: Option<string>)

  /** `status.load_balancer` of a service; `ingress` may be absent. */
  datatype LoadBalancerStatus = LoadBalancerStatus(ingress: Option<seq<Ingress>>)

  /** A service: `spec.type`, `status.load_balancer` and the `port` numbers
      of `spec.ports`, which is None when the spec lists no ports. */
  datatype Service = Service(
    serviceType: string,
    loadBalancer: Option<LoadBalancerStatus>,
    ports: Option<seq<nat>>)
}
