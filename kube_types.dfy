/**
 * The few Kubernetes API records (core/v1, apps/v1, intstr, resource) whose
 * fields the component resolvers read or set, reduced to those fields.
 */
module KubeTypes {
  import opened Wrappers

  /** Go's `int32`: every port and probe setting is one. */
  newtype int32 = x: int | -0x8000_0000 <= x < 0x8000_0000

  /** `corev1.PullPolicy`. */
  datatype PullPolicy = PullAlways | PullNever | PullIfNotPresent

  /** `corev1.Protocol`. */
  datatype Protocol = ProtocolTCP | ProtocolUDP | ProtocolSCTP

  /** `corev1.ServiceType`; `ServiceTypeUnset` is the zero value `""`. */
  datatype ServiceType = ServiceTypeUnset | ClusterIP | NodePort | LoadBalancer | ExternalName

  /** `intstr.IntOrString`. */
  datatype IntOrString = IntVal(intVal: int32) | StrVal(strVal: string)

  /** `resource.Quantity`, as its value in base units (bytes for memory). */
  datatype Quantity = Quantity(value: int)

  /** `resource.MustParse("1Gi")`. */
  const OneGi: Quantity := Quantity(0x4000_0000)

  /** `corev1.ResourceRequirements`: limits and requests keyed by resource name. */
  datatype ResourceRequirements = ResourceRequirements(limits: map<string, Quantity>, requests: map<string, Quantity>)

  /** `corev1.ResourceRequirements{}`. */
  const EmptyResources: ResourceRequirements := ResourceRequirements(map[], map[])

  /** `corev1.ResourceFieldSelector`. */
  datatype ResourceFieldSelector = ResourceFieldSelector(containerName: string, resource: string, divisor: Quantity)

  /** `corev1.EnvVarSource`, reduced to the resource-field reference. */
  datatype EnvVarSource = EnvVarSource(resourceFieldRef: Option<ResourceFieldSelector>)

  /** `corev1.EnvVar`. */
  datatype EnvVar = EnvVar(name: string, value: string, valueFrom: Option<EnvVarSource>)

  /** `corev1.LocalObjectReference`, as used for image pull secrets. */
  datatype LocalObjectReference = LocalObjectReference(name: string)

  /** `corev1.Toleration`. */
  datatype Toleration = Toleration(key: string, operator: string, value: string, effect: string, tolerationSeconds: Option<int>)

  /** `corev1.ContainerPort`. */
  datatype ContainerPort = ContainerPort(name: string, containerPort: int32, protocol: Protocol)

  /** `corev1.ServicePort`. */
  datatype ServicePort = ServicePort(name: string, protocol: Protocol, port: int32, targetPort: IntOrString)

  /** `corev1.URIScheme`. */
  datatype URIScheme = SchemeHTTP | SchemeHTTPS

  /** `corev1.HTTPGetAction`. */
  datatype HTTPGetAction = HTTPGetAction(path: string, port: IntOrString, scheme: URIScheme)

  /** `corev1.Probe` with an HTTP GET handler. */
  datatype Probe = Probe(
    httpGet: HTTPGetAction,
    initialDelaySeconds: int32,
    timeoutSeconds: int32,
    periodSeconds: int32,
    failureThreshold: int32,
    successThreshold: int32)

  /** `appsv1.DeploymentStrategyType`. */
  datatype DeploymentStrategyType = RecreateDeploymentStrategyType | RollingUpdateDeploymentStrategyType

  /** `appsv1.RollingUpdateDeployment`. */
  datatype RollingUpdateDeployment = RollingUpdateDeployment(maxUnavailable: Option<IntOrString>, maxSurge: Option<IntOrString>)

  /** `appsv1.DeploymentStrategy`. */
  datatype DeploymentStrategy = DeploymentStrategy(strategyType: DeploymentStrategyType, rollingUpdate: Option<RollingUpdateDeployment>)
}
