/**
 * The parts of the Milvus custom resources (`MilvusClusterSpec`, `MilvusSpec`)
 * that the component resolvers read.
 */
module ClusterSpec {
  import opened Wrappers
  import opened KubeTypes

  /**
   * Settings every component block shares, and that `spec.com` also holds
   * cluster-wide. An empty string or empty list means "not set"; nil-able
   * fields of Go are `Option`s.
   */
  datatype ComponentSpec = ComponentSpec(
    image: string,
    imagePullPolicy: Option<PullPolicy>,
    imagePullSecrets: seq<LocalObjectReference>,
    env: seq<EnvVar>,
    nodeSelector: Option<map<string, string>>,
    tolerations: seq<Toleration>,
    resources: Option<ResourceRequirements>)

  /** The zero `ComponentSpec`: nothing overridden. */
  const ZeroComponentSpec: ComponentSpec := ComponentSpec("", None, [], [], None, [], None)

  /** One role's block: its overrides, its replica count and its port (0 = unset). */
  datatype Component = Component(spec: ComponentSpec, replicas: Option<int32>, port: int32)

  /** The proxy's block additionally chooses the type of its service. */
  datatype ProxyComponent = ProxyComponent(component: Component, serviceType: ServiceType)

  /** `spec.com`: the cluster-wide overrides plus one block per cluster role. */
  datatype MilvusComponents = MilvusComponents(
    common: ComponentSpec,
    rootCoord: Component,
    dataCoord: Component,
    queryCoord: Component,
    indexCoord: Component,
    dataNode: Component,
    queryNode: Component,
    indexNode: Component,
    proxy: ProxyComponent)

  /** A JSON-like value, the shape of inline configuration data. */
  datatype Json =
    | JNull
    | JBool(b: bool)
    | JNumber(n: int)
    | JString(s: string)
    | JArray(items: seq<Json>)
    | JObject(fields: map<string, Json>)

  /** Inline configuration (`spec.conf`). */
  datatype Values = Values(data: map<string, Json>)

  datatype EtcdConfig = EtcdConfig(endpoints: seq<string>)
  datatype PulsarConfig = PulsarConfig(endpoint: string)
  datatype StorageConfig = StorageConfig(endpoint: string)

  /** External dependencies of a cluster deployment. */
  datatype ClusterDependencies = ClusterDependencies(etcd: EtcdConfig, pulsar: PulsarConfig, storage: StorageConfig)

  /** External dependencies of a standalone deployment (no message bus). */
  datatype StandaloneDependencies = StandaloneDependencies(etcd: EtcdConfig, storage: StorageConfig)

  /** `MilvusClusterSpec`. */
  datatype MilvusClusterSpec = MilvusClusterSpec(com: MilvusComponents, conf: Values, dep: ClusterDependencies)

  /** `MilvusSpec` (standalone). */
  datatype MilvusSpec = MilvusSpec(conf: Values, dep: StandaloneDependencies)
}
