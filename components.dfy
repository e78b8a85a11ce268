/**
 * The component capability model of the Milvus operator: the fixed registry
 * of Milvus roles and the functions that turn a role and a cluster spec into
 * the settings of that role's deployment and service.
 */
module Components {
  import opened Wrappers
  import opened KubeTypes
  import opened ClusterSpec
  import opened Precedence

  // ---------------------------------------------------------------------
  // Constants

  const MetricPortName: string := "metrics"
  /** The metrics path is part of the port contract; no resolver here uses it. */
  const MetricPath: string := "/metrics"
  const MetricPort: int32 := 9091

  const RootCoordPort: int32 := 53100
  const DataCoordPort: int32 := 13333
  const QueryCoordPort: int32 := 19531
  const IndexCoordPort: int32 := 31000
  const IndexNodePort: int32 := 21121
  const QueryNodePort: int32 := 21123
  const DataNodePort: int32 := 21124
  const ProxyPort: int32 := 19530
  const MilvusPort: int32 := ProxyPort

  /** Name of the synthetic cache-size variable added to every role's env. */
  const CacheSizeEnvName: string := "CACHE_SIZE"

  // ---------------------------------------------------------------------
  // The registry

  /** The eight cluster roles and the standalone role. */
  datatype Role =
    | RootCoord | DataCoord | QueryCoord | IndexCoord
    | DataNode | QueryNode | IndexNode
    | Proxy
    | Standalone

  /** `MilvusComponent`: a role's name, the spec field holding its block, its default port. */
  datatype MilvusComponent = MilvusComponent(name: string, fieldName: string, defaultPort: int32)

  /**
   * The registry entry of each role. Only the standalone role has no spec
   * field; it shares the proxy's port; no role is named like the metrics port.
   */
  function Descriptor(r: Role): (d: MilvusComponent)
    ensures d.fieldName == "" <==> r == Standalone
    ensures r == Standalone ==> d.defaultPort == ProxyPort
    ensures d.defaultPort > 0
    ensures d.name != MetricPortName
  {
    match r
    case RootCoord => MilvusComponent("rootcoord", "RootCoord", RootCoordPort)
    case DataCoord => MilvusComponent("datacoord", "DataCoord", DataCoordPort)
    case QueryCoord => MilvusComponent("querycoord", "QueryCoord", QueryCoordPort)
    case IndexCoord => MilvusComponent("indexcoord", "IndexCoord", IndexCoordPort)
    case DataNode => MilvusComponent("datanode", "DataNode", DataNodePort)
    case QueryNode => MilvusComponent("querynode", "QueryNode", QueryNodePort)
    case IndexNode => MilvusComponent("indexnode", "IndexNode", IndexNodePort)
    case Proxy => MilvusComponent("proxy", "Proxy", ProxyPort)
    case Standalone => MilvusComponent("milvus", "", MilvusPort)
  }

  /**
   * `MilvusComponents`: the roles of a cluster deployment. As in the source,
   * the same name also denotes the type of `spec.com` (`ClusterSpec.MilvusComponents`).
   */
  const MilvusComponents: seq<Role> :=
    [RootCoord, DataCoord, QueryCoord, IndexCoord, DataNode, QueryNode, IndexNode, Proxy]

  /** `MilvusCoords`: the coordinator roles. */
  const MilvusCoords: seq<Role> := [RootCoord, DataCoord, QueryCoord, IndexCoord]

  /** A role that owns a block in `spec.com` (every role but standalone). */
  predicate IsClusterRole(r: Role) {
    r != Standalone
  }

  /** The registry lists each cluster role once, and only those. */
  lemma RegistryListsClusterRoles()
    ensures |MilvusComponents| == 8
    ensures forall r :: r in MilvusComponents <==> IsClusterRole(r)
    ensures forall i, j :: 0 <= i < j < |MilvusComponents| ==> MilvusComponents[i] != MilvusComponents[j]
    ensures forall r :: r in MilvusCoords ==> r in MilvusComponents
  {
  }

  /**
   * Role names, field names and hence whole descriptors identify the role,
   * so comparing descriptors (as the service-name rule does) is comparing roles.
   */
  lemma DescriptorsAreDistinct(r1: Role, r2: Role)
    ensures Descriptor(r1).name == Descriptor(r2).name ==> r1 == r2
    ensures Descriptor(r1).fieldName == Descriptor(r2).fieldName ==> r1 == r2
    ensures IsClusterRole(r1) <==> Descriptor(r1).fieldName != ""
  {
  }

  // ---------------------------------------------------------------------
  // Coordinators and worker nodes

  /** `strings.HasSuffix`. */
  predicate HasSuffix(s: string, suffix: string) {
    |suffix| <= |s| && s[|s| - |suffix|..] == suffix
  }

  /** `IsCoord`: the role's name ends in "coord", which holds exactly for the coordinators. */
  predicate IsCoord(r: Role)
    ensures IsCoord(r) <==> r in MilvusCoords
  {
    CoordRoles(r);
    HasSuffix(Descriptor(r).name, "coord")
  }

  /** `IsNode`: the role's name ends in "node", which holds exactly for the worker nodes. */
  predicate IsNode(r: Role)
    ensures IsNode(r) <==> r in {DataNode, QueryNode, IndexNode}
  {
    NodeRoles(r);
    HasSuffix(Descriptor(r).name, "node")
  }

  /** Ending a registry name in "coord" picks out exactly the roles listed in `MilvusCoords`. */
  lemma CoordRoles(r: Role)
    ensures HasSuffix(Descriptor(r).name, "coord") <==> r in MilvusCoords
  {
    match r
    case RootCoord => assert "rootcoord"[4..] == "coord";
    case DataCoord => assert "datacoord"[4..] == "coord";
    case QueryCoord => assert "querycoord"[5..] == "coord";
    case IndexCoord => assert "indexcoord"[5..] == "coord";
    case DataNode | QueryNode | IndexNode | Proxy | Standalone =>
      if HasSuffix(Descriptor(r).name, "coord") {
        SuffixSharesLastChar(Descriptor(r).name, "coord");
      }
  }

  /** Ending a registry name in "node" picks out exactly the three worker-node roles. */
  lemma NodeRoles(r: Role)
    ensures HasSuffix(Descriptor(r).name, "node") <==> r in {DataNode, QueryNode, IndexNode}
  {
    match r
    case DataNode => assert "datanode"[4..] == "node";
    case QueryNode => assert "querynode"[5..] == "node";
    case IndexNode => assert "indexnode"[5..] == "node";
    case RootCoord | DataCoord | QueryCoord | IndexCoord | Proxy | Standalone =>
      if HasSuffix(Descriptor(r).name, "node") {
        SuffixSharesLastChar(Descriptor(r).name, "node");
      }
  }

  /** No registry name ends in both "coord" and "node". */
  lemma CoordIsNotNode(r: Role)
    ensures !(HasSuffix(Descriptor(r).name, "coord") && HasSuffix(Descriptor(r).name, "node"))
  {
    if HasSuffix(Descriptor(r).name, "coord") && HasSuffix(Descriptor(r).name, "node") {
      var name := Descriptor(r).name;
      SuffixSharesLastChar(name, "coord");
      SuffixSharesLastChar(name, "node");
    }
  }

  /** A string and its suffix end in the same character. */
  lemma SuffixSharesLastChar(s: string, suffix: string)
    requires HasSuffix(s, suffix) && |suffix| > 0
    ensures s[|s| - 1] == suffix[|suffix| - 1]
  {
    assert s[|s| - |suffix|..][|suffix| - 1] == s[|s| - 1];
  }

  // ---------------------------------------------------------------------
  // Finding a role's block in the spec

  /**
   * The block of `com` that a reflective lookup of the field `fieldName`
   * reaches, or `None` when `com` has no such field (Go's reflection then
   * panics).
   */
  function FieldByName(com: MilvusComponents, fieldName: string): (c: Option<Component>)
    ensures c.Some? <==> fieldName in {"RootCoord", "DataCoord", "QueryCoord", "IndexCoord", "DataNode", "QueryNode", "IndexNode", "Proxy"}
  {
    if fieldName == "RootCoord" then Some(com.rootCoord)
    else if fieldName == "DataCoord" then Some(com.dataCoord)
    else if fieldName == "QueryCoord" then Some(com.queryCoord)
    else if fieldName == "IndexCoord" then Some(com.indexCoord)
    else if fieldName == "DataNode" then Some(com.dataNode)
    else if fieldName == "QueryNode" then Some(com.queryNode)
    else if fieldName == "IndexNode" then Some(com.indexNode)
    else if fieldName == "Proxy" then Some(com.proxy.component)
    else None
  }

  /**
   * A role's block, by an explicit dispatch on the role. It is the block the
   * reflective lookup by the role's field name finds; the standalone role,
   * whose field name is empty, has none.
   */
  function RoleComponent(r: Role, com: MilvusComponents): (c: Component)
    requires IsClusterRole(r)
    ensures FieldByName(com, Descriptor(r).fieldName) == Some(c)
  {
    match r
    case RootCoord => com.rootCoord
    case DataCoord => com.dataCoord
    case QueryCoord => com.queryCoord
    case IndexCoord => com.indexCoord
    case DataNode => com.dataNode
    case QueryNode => com.queryNode
    case IndexNode => com.indexNode
    case Proxy => com.proxy.component
  }

  /** `GetComponentSpec`: the overrides in the block found by the role's field name. */
  function RoleSpec(r: Role, spec: MilvusClusterSpec): (cs: ComponentSpec)
    requires IsClusterRole(r)
    ensures FieldByName(spec.com, Descriptor(r).fieldName).Some?
    ensures cs == FieldByName(spec.com, Descriptor(r).fieldName).value.spec
  {
    RoleComponent(r, spec.com).spec
  }

  // ---------------------------------------------------------------------
  // Resolving overrides: role, then cluster-wide, then built-in default

  /** `GetImage`: the role's image when non-empty, else the cluster-wide image as it is. */
  function GetImage(r: Role, spec: MilvusClusterSpec): (image: string)
    requires IsClusterRole(r)
    ensures FirstSet([NonEmpty(RoleSpec(r, spec).image), Some(spec.com.common.image)]) == Some(image)
    ensures |RoleSpec(r, spec).image| > 0 ==> image == RoleSpec(r, spec).image
    ensures |RoleSpec(r, spec).image| == 0 ==> image == spec.com.common.image
  {
    var componentImage := RoleSpec(r, spec).image;
    if |componentImage| > 0 then componentImage else spec.com.common.image
  }

  /** `GetImagePullSecrets`: the role's list when non-empty, else the cluster-wide list. */
  function GetImagePullSecrets(r: Role, spec: MilvusClusterSpec): (secrets: seq<LocalObjectReference>)
    requires IsClusterRole(r)
    ensures FirstSet([NonEmpty(RoleSpec(r, spec).imagePullSecrets), Some(spec.com.common.imagePullSecrets)]) == Some(secrets)
    ensures |RoleSpec(r, spec).imagePullSecrets| > 0 ==> secrets == RoleSpec(r, spec).imagePullSecrets
    ensures |RoleSpec(r, spec).imagePullSecrets| == 0 ==> secrets == spec.com.common.imagePullSecrets
  {
    var pullSecrets := RoleSpec(r, spec).imagePullSecrets;
    if |pullSecrets| > 0 then pullSecrets else spec.com.common.imagePullSecrets
  }

  /** `GetImagePullPolicy`: the role's policy, else the cluster-wide one, else `IfNotPresent`. */
  function GetImagePullPolicy(r: Role, spec: MilvusClusterSpec): (policy: PullPolicy)
    requires IsClusterRole(r)
    ensures policy == FirstSet([RoleSpec(r, spec).imagePullPolicy, spec.com.common.imagePullPolicy]).GetOr(PullIfNotPresent)
    ensures RoleSpec(r, spec).imagePullPolicy.Some? ==> policy == RoleSpec(r, spec).imagePullPolicy.value
    ensures RoleSpec(r, spec).imagePullPolicy.None? && spec.com.common.imagePullPolicy.Some? ==>
              policy == spec.com.common.imagePullPolicy.value
    ensures RoleSpec(r, spec).imagePullPolicy.None? && spec.com.common.imagePullPolicy.None? ==>
              policy == PullIfNotPresent
  {
    var pullPolicy := RoleSpec(r, spec).imagePullPolicy;
    if pullPolicy.Some? then pullPolicy.value
    else if spec.com.common.imagePullPolicy.Some? then spec.com.common.imagePullPolicy.value
    else PullIfNotPresent
  }

  /** `GetTolerations`: the role's list when non-empty, else the cluster-wide list. */
  function GetTolerations(r: Role, spec: MilvusClusterSpec): (tolerations: seq<Toleration>)
    requires IsClusterRole(r)
    ensures FirstSet([NonEmpty(RoleSpec(r, spec).tolerations), Some(spec.com.common.tolerations)]) == Some(tolerations)
    ensures |RoleSpec(r, spec).tolerations| > 0 ==> tolerations == RoleSpec(r, spec).tolerations
    ensures |RoleSpec(r, spec).tolerations| == 0 ==> tolerations == spec.com.common.tolerations
  {
    var roleTolerations := RoleSpec(r, spec).tolerations;
    if |roleTolerations| > 0 then roleTolerations else spec.com.common.tolerations
  }

  /**
   * `GetNodeSelector`: the role's map whenever it is non-nil, even when empty,
   * else the cluster-wide one (which may itself be nil).
   */
  function GetNodeSelector(r: Role, spec: MilvusClusterSpec): (selector: Option<map<string, string>>)
    requires IsClusterRole(r)
    ensures selector == FirstSet([RoleSpec(r, spec).nodeSelector, spec.com.common.nodeSelector])
    ensures RoleSpec(r, spec).nodeSelector.Some? ==> selector == RoleSpec(r, spec).nodeSelector
    ensures RoleSpec(r, spec).nodeSelector.None? ==> selector == spec.com.common.nodeSelector
  {
    var nodeSelector := RoleSpec(r, spec).nodeSelector;
    if nodeSelector.Some? then nodeSelector else spec.com.common.nodeSelector
  }

  /** `GetResources`: the role's requirements, else the cluster-wide ones, else empty ones. */
  function GetResources(r: Role, spec: MilvusClusterSpec): (resources: ResourceRequirements)
    requires IsClusterRole(r)
    ensures resources == FirstSet([RoleSpec(r, spec).resources, spec.com.common.resources]).GetOr(EmptyResources)
    ensures RoleSpec(r, spec).resources.Some? ==> resources == RoleSpec(r, spec).resources.value
    ensures RoleSpec(r, spec).resources.None? && spec.com.common.resources.Some? ==>
              resources == spec.com.common.resources.value
    ensures RoleSpec(r, spec).resources.None? && spec.com.common.resources.None? ==>
              resources == EmptyResources
  {
    var roleResources := RoleSpec(r, spec).resources;
    if roleResources.Some? then roleResources.value
    else if spec.com.common.resources.Some? then spec.com.common.resources.value
    else EmptyResources
  }

  /** `GetReplicas`: read from the role's block found by field name; there is no cluster-wide value. */
  function GetReplicas(r: Role, spec: MilvusClusterSpec): (replicas: Option<int32>)
    requires IsClusterRole(r)
    ensures FieldByName(spec.com, Descriptor(r).fieldName).Some?
    ensures replicas == FieldByName(spec.com, Descriptor(r).fieldName).value.replicas
  {
    RoleComponent(r, spec.com).replicas
  }

  /** `GetComponentPort`: the role's port when non-zero, else the role's default port. */
  function GetComponentPort(r: Role, spec: MilvusClusterSpec): (port: int32)
    requires IsClusterRole(r)
    ensures RoleComponent(r, spec.com).port != 0 ==> port == RoleComponent(r, spec.com).port
    ensures RoleComponent(r, spec.com).port == 0 ==> port == Descriptor(r).defaultPort
    ensures var p := RoleComponent(r, spec.com).port;
      port == FirstSet([if p != 0 then Some(p) else None]).GetOr(Descriptor(r).defaultPort)
    ensures port != 0
  {
    var port := RoleComponent(r, spec.com).port;
    if port != 0 then port else Descriptor(r).defaultPort
  }

  /**
   * A role whose own block sets nothing takes every attribute from the
   * cluster-wide overrides or, failing those, the built-in default.
   */
  lemma UnsetRoleFallsBack(r: Role, spec: MilvusClusterSpec)
    requires IsClusterRole(r)
    requires RoleComponent(r, spec.com) == Component(ZeroComponentSpec, None, 0)
    ensures GetImage(r, spec) == spec.com.common.image
    ensures GetImagePullSecrets(r, spec) == spec.com.common.imagePullSecrets
    ensures GetImagePullPolicy(r, spec) == spec.com.common.imagePullPolicy.GetOr(PullIfNotPresent)
    ensures GetTolerations(r, spec) == spec.com.common.tolerations
    ensures GetNodeSelector(r, spec) == spec.com.common.nodeSelector
    ensures GetResources(r, spec) == spec.com.common.resources.GetOr(EmptyResources)
    ensures GetReplicas(r, spec) == None
    ensures GetComponentPort(r, spec) == Descriptor(r).defaultPort
  {
  }

  /**
   * Whatever a role sets itself is unaffected by the cluster-wide overrides:
   * replacing them by any `common'` leaves those attributes unchanged.
   */
  lemma RoleOverridesShadowCommon(r: Role, spec: MilvusClusterSpec, common': ComponentSpec, spec': MilvusClusterSpec)
    requires IsClusterRole(r)
    requires spec' == spec.(com := spec.com.(common := common'))
    ensures RoleSpec(r, spec') == RoleSpec(r, spec)
    ensures |RoleSpec(r, spec).image| > 0 ==> GetImage(r, spec') == GetImage(r, spec)
    ensures |RoleSpec(r, spec).imagePullSecrets| > 0 ==> GetImagePullSecrets(r, spec') == GetImagePullSecrets(r, spec)
    ensures RoleSpec(r, spec).imagePullPolicy.Some? ==> GetImagePullPolicy(r, spec') == GetImagePullPolicy(r, spec)
    ensures |RoleSpec(r, spec).tolerations| > 0 ==> GetTolerations(r, spec') == GetTolerations(r, spec)
    ensures RoleSpec(r, spec).nodeSelector.Some? ==> GetNodeSelector(r, spec') == GetNodeSelector(r, spec)
    ensures RoleSpec(r, spec).resources.Some? ==> GetResources(r, spec') == GetResources(r, spec)
    ensures GetReplicas(r, spec') == GetReplicas(r, spec)
    ensures GetComponentPort(r, spec') == GetComponentPort(r, spec)
  {
    var cs, c := RoleSpec(r, spec), spec.com.common;
    assert RoleSpec(r, spec') == cs;
    if cs.imagePullPolicy.Some? {
      UpperOfTwoDecides(cs.imagePullPolicy, c.imagePullPolicy, common'.imagePullPolicy);
    }
    if cs.nodeSelector.Some? {
      UpperOfTwoDecides(cs.nodeSelector, c.nodeSelector, common'.nodeSelector);
    }
    if cs.resources.Some? {
      UpperOfTwoDecides(cs.resources, c.resources, common'.resources);
    }
  }

  // ---------------------------------------------------------------------
  // Environment

  /** The synthetic entry: the container's memory limit, in units of 1Gi. */
  const CacheSizeEnv: EnvVar :=
    EnvVar(CacheSizeEnvName, "", Some(EnvVarSource(Some(ResourceFieldSelector("", "limits.memory", OneGi)))))

  /** How many entries of `env` carry the name `name`. */
  function CountNamed(env: seq<EnvVar>, name: string): nat {
    if |env| == 0 then 0
    else CountNamed(env[..|env| - 1], name) + (if env[|env| - 1].name == name then 1 else 0)
  }

  /**
   * The role's env followed by one `CACHE_SIZE` entry that reads the
   * `limits.memory` resource with divisor 1Gi.
   */
  function EnvWithCacheSize(r: Role, spec: MilvusClusterSpec): (env: seq<EnvVar>)
    requires IsClusterRole(r)
    ensures |env| == |RoleSpec(r, spec).env| + 1
    ensures env[..|env| - 1] == RoleSpec(r, spec).env
    ensures env[|env| - 1].name == CacheSizeEnvName
    ensures env[|env| - 1].valueFrom.Some? && env[|env| - 1].valueFrom.value.resourceFieldRef.Some?
    ensures var sel := env[|env| - 1].valueFrom.value.resourceFieldRef.value;
      sel.resource == "limits.memory" && sel.divisor == OneGi
    ensures CountNamed(env, CacheSizeEnvName) == CountNamed(RoleSpec(r, spec).env, CacheSizeEnvName) + 1
  {
    RoleSpec(r, spec).env + [CacheSizeEnv]
  }

  /**
   * `GetEnv`: the merge (`MergeEnvVar`, not part of this model, passed in as
   * `mergeEnvVar`) of the cluster-wide env with the role's env plus `CACHE_SIZE`.
   */
  function GetEnv(r: Role, spec: MilvusClusterSpec, mergeEnvVar: (seq<EnvVar>, seq<EnvVar>) -> seq<EnvVar>): (env: seq<EnvVar>)
    requires IsClusterRole(r)
    ensures env == mergeEnvVar(spec.com.common.env, RoleSpec(r, spec).env + [CacheSizeEnv])
  {
    mergeEnvVar(spec.com.common.env, EnvWithCacheSize(r, spec))
  }

  // ---------------------------------------------------------------------
  // Names

  /** `GetInstanceName`: `<instance>-milvus-<role name>`. */
  function GetInstanceName(r: Role, instance: string): (name: string)
    ensures name == instance + "-milvus-" + Descriptor(r).name
    ensures HasSuffix(name, Descriptor(r).name)
  {
    instance + "-milvus-" + Descriptor(r).name
  }

  /** `GetDeploymentInstanceName`: the deployment is named like the instance. */
  function GetDeploymentInstanceName(r: Role, instance: string): (name: string)
    ensures name == GetInstanceName(r, instance)
  {
    GetInstanceName(r, instance)
  }

  /** `GetServiceInstanceName`: `<instance>-milvus` for the proxy, the instance name otherwise. */
  function GetServiceInstanceName(r: Role, instance: string): (name: string)
    ensures r == Proxy ==> name == instance + "-milvus"
    ensures r != Proxy ==> name == GetInstanceName(r, instance)
  {
    if Descriptor(r) == Descriptor(Proxy) then instance + "-milvus" else GetInstanceName(r, instance)
  }

  /** `GetContainerName`: the role's name, never the metrics port's name. */
  function GetContainerName(r: Role): (name: string)
    ensures name == Descriptor(r).name
    ensures name != MetricPortName
  {
    Descriptor(r).name
  }

  /** A string without any '-'. */
  predicate NoDash(s: string) {
    forall k :: 0 <= k < |s| ==> s[k] != '-'
  }

  lemma RoleNameHasNoDash(r: Role)
    ensures NoDash(Descriptor(r).name)
  {
  }

  /**
   * When the same string is split twice at a '-', the piece after the later
   * split is shorter, and the earlier split's '-' lies inside the longer piece.
   */
  lemma DashInsideLongerSuffix(a: string, x: string, b: string, y: string)
    requires a + "-" + x == b + "-" + y
    requires |x| < |y|
    ensures y[|y| - |x| - 1] == '-'
  {
    var s := a + "-" + x;
    assert s[|a|] == '-';
    assert y[|y| - |x| - 1] == s[|a|];
  }

  /** Two strings split at a '-' after which no '-' follows are split at the same place. */
  lemma SplitAtLastDash(a: string, x: string, b: string, y: string)
    requires a + "-" + x == b + "-" + y
    requires NoDash(x) && NoDash(y)
    ensures a == b && x == y
  {
    var s := a + "-" + x;
    if |x| < |y| {
      DashInsideLongerSuffix(a, x, b, y);
      assert false;
    } else if |y| < |x| {
      DashInsideLongerSuffix(b, y, a, x);
      assert false;
    } else {
      assert a == s[..|a|] == b;
      assert x == s[|a| + 1..] == y;
    }
  }

  /**
   * Instance names never collide: the name determines both the role and the
   * instance, because role names contain no '-'.
   */
  lemma InstanceNameInjective(r1: Role, instance1: string, r2: Role, instance2: string)
    requires GetInstanceName(r1, instance1) == GetInstanceName(r2, instance2)
    ensures r1 == r2 && instance1 == instance2
  {
    var n1, n2 := Descriptor(r1).name, Descriptor(r2).name;
    assert instance1 + "-milvus-" + n1 == (instance1 + "-milvus") + "-" + n1;
    assert instance2 + "-milvus-" + n2 == (instance2 + "-milvus") + "-" + n2;
    RoleNameHasNoDash(r1);
    RoleNameHasNoDash(r2);
    SplitAtLastDash(instance1 + "-milvus", n1, instance2 + "-milvus", n2);
    DescriptorsAreDistinct(r1, r2);
    assert instance1 == (instance1 + "-milvus")[..|instance1|];
    assert instance2 == (instance2 + "-milvus")[..|instance2|];
  }

  /** Within one instance, every role gets a service name of its own. */
  lemma ServiceNamesDistinct(r1: Role, r2: Role, instance: string)
    requires r1 != r2
    ensures GetServiceInstanceName(r1, instance) != GetServiceInstanceName(r2, instance)
  {
    if r1 != Proxy && r2 != Proxy {
      if GetInstanceName(r1, instance) == GetInstanceName(r2, instance) {
        InstanceNameInjective(r1, instance, r2, instance);
      }
    }
  }

  // ---------------------------------------------------------------------
  // Ports and service type

  /** `GetContainerPorts`: the role's port, then the metrics port, both TCP. */
  function GetContainerPorts(r: Role, spec: MilvusClusterSpec): (ports: seq<ContainerPort>)
    requires IsClusterRole(r)
    ensures |ports| == 2
    ensures ports[0] == ContainerPort(Descriptor(r).name, GetComponentPort(r, spec), ProtocolTCP)
    ensures ports[1] == ContainerPort(MetricPortName, MetricPort, ProtocolTCP)
    ensures ports[0].name != ports[1].name
  {
    [ContainerPort(GetContainerName(r), GetComponentPort(r, spec), ProtocolTCP),
     ContainerPort(MetricPortName, MetricPort, ProtocolTCP)]
  }

  /**
   * `GetServicePorts`: the role's port unless the role is a worker node, then
   * always the metrics port; each targets the container port of its name.
   */
  function GetServicePorts(r: Role, spec: MilvusClusterSpec): (ports: seq<ServicePort>)
    requires IsClusterRole(r)
    ensures |ports| == if IsNode(r) then 1 else 2
    ensures ports[|ports| - 1] == ServicePort(MetricPortName, ProtocolTCP, MetricPort, StrVal(MetricPortName))
    ensures !IsNode(r) ==>
              ports[0] == ServicePort(Descriptor(r).name, ProtocolTCP, GetComponentPort(r, spec), StrVal(Descriptor(r).name))
  {
    var metrics := ServicePort(MetricPortName, ProtocolTCP, MetricPort, StrVal(MetricPortName));
    if !IsNode(r) then
      [ServicePort(Descriptor(r).name, ProtocolTCP, GetComponentPort(r, spec), StrVal(Descriptor(r).name)), metrics]
    else
      [metrics]
  }

  /**
   * Every service port names a container port of the same role as its
   * target, with the same port number and protocol; and the service exposes
   * the role's own port exactly for the roles that are not worker nodes.
   */
  lemma ServicePortsTargetContainerPorts(r: Role, spec: MilvusClusterSpec)
    requires IsClusterRole(r)
    ensures var sp, cp := GetServicePorts(r, spec), GetContainerPorts(r, spec);
      forall i :: 0 <= i < |sp| ==>
        exists j :: 0 <= j < |cp| && sp[i].targetPort == StrVal(cp[j].name)
                                  && sp[i].port == cp[j].containerPort
                                  && sp[i].protocol == cp[j].protocol
    ensures (exists i :: 0 <= i < |GetServicePorts(r, spec)| && GetServicePorts(r, spec)[i].name == Descriptor(r).name)
            <==> r !in {DataNode, QueryNode, IndexNode}
  {
    var sp, cp := GetServicePorts(r, spec), GetContainerPorts(r, spec);
    NodeRoles(r);
    forall i | 0 <= i < |sp|
      ensures exists j :: 0 <= j < |cp| && sp[i].targetPort == StrVal(cp[j].name)
                                        && sp[i].port == cp[j].containerPort
                                        && sp[i].protocol == cp[j].protocol
    {
      if i == |sp| - 1 {
        assert sp[i].targetPort == StrVal(cp[1].name);
      } else {
        assert sp[i].targetPort == StrVal(cp[0].name);
      }
    }
    if !IsNode(r) {
      assert sp[0].name == Descriptor(r).name;
    } else {
      assert Descriptor(r).name != MetricPortName;
    }
  }

  /** `GetServiceType`: `ClusterIP` for every role but the proxy, whose type the spec chooses. */
  function GetServiceType(r: Role, spec: MilvusClusterSpec): (t: ServiceType)
    ensures r != Proxy ==> t == ClusterIP
    ensures r == Proxy ==> t == spec.com.proxy.serviceType
  {
    if Descriptor(r) != Descriptor(Proxy) then ClusterIP else spec.com.proxy.serviceType
  }

  // ---------------------------------------------------------------------
  // Deployment strategy and probes

  /**
   * `GetDeploymentStrategy`: coordinators are recreated (never two live
   * replicas); every other role rolls with no unavailable and one surge replica.
   */
  function GetDeploymentStrategy(r: Role): (s: DeploymentStrategy)
    ensures s.strategyType == RecreateDeploymentStrategyType <==> r in MilvusCoords
    ensures s.strategyType == RecreateDeploymentStrategyType ==> s.rollingUpdate == None
    ensures s.strategyType == RollingUpdateDeploymentStrategyType ==>
              s.rollingUpdate == Some(RollingUpdateDeployment(Some(IntVal(0)), Some(IntVal(1))))
  {
    if IsCoord(r) then
      DeploymentStrategy(RecreateDeploymentStrategyType, None)
    else
      DeploymentStrategy(RollingUpdateDeploymentStrategyType,
                         Some(RollingUpdateDeployment(Some(IntVal(0)), Some(IntVal(1)))))
  }

  /** `GetLivenessProbe`: HTTP GET `/healthz` on the metrics port, with a two-minute initial delay. */
  function GetLivenessProbe(): (p: Probe)
    ensures p.httpGet == HTTPGetAction("/healthz", IntVal(MetricPort), SchemeHTTP)
    ensures p.initialDelaySeconds == 120 && p.timeoutSeconds == 3 && p.periodSeconds == 30
    ensures p.failureThreshold == 2 && p.successThreshold == 1
  {
    Probe(HTTPGetAction("/healthz", IntVal(9091), SchemeHTTP), 120, 3, 30, 2, 1)
  }

  /** `GetReadinessProbe`: identical to the liveness probe. */
  function GetReadinessProbe(): (p: Probe)
    ensures p == GetLivenessProbe()
  {
    Probe(HTTPGetAction("/healthz", IntVal(9091), SchemeHTTP), 120, 3, 30, 2, 1)
  }

  /** Both probes reach a port that every role's container declares, under the name "metrics". */
  lemma ProbesTargetMetricsContainerPort(r: Role, spec: MilvusClusterSpec)
    requires IsClusterRole(r)
    ensures exists j :: 0 <= j < |GetContainerPorts(r, spec)|
                     && GetContainerPorts(r, spec)[j].name == MetricPortName
                     && GetLivenessProbe().httpGet.port == IntVal(GetContainerPorts(r, spec)[j].containerPort)
                     && GetReadinessProbe().httpGet.port == IntVal(GetContainerPorts(r, spec)[j].containerPort)
  {
    assert GetContainerPorts(r, spec)[1].name == MetricPortName;
  }

  // ---------------------------------------------------------------------
  // Configuration checksum inputs

  /** A value of the record that is serialised and hashed. */
  datatype ChecksumValue =
    | ConfData(data: map<string, Json>)
    | EndpointList(endpoints: seq<string>)
    | EndpointValue(endpoint: string)

  type ChecksumRecord = map<string, ChecksumValue>

  type Bytes = seq<bv8>

  /** The record hashed for a cluster: inline configuration and the three dependency endpoints. */
  function ConfCheckSumRecord(spec: MilvusClusterSpec): (rec: ChecksumRecord)
    ensures rec.Keys == {"conf", "etcd-endpoints", "pulsar-endpoint", "storage-endpoint"}
    ensures rec["conf"] == ConfData(spec.conf.data)
    ensures rec["etcd-endpoints"] == EndpointList(spec.dep.etcd.endpoints)
    ensures rec["pulsar-endpoint"] == EndpointValue(spec.dep.pulsar.endpoint)
    ensures rec["storage-endpoint"] == EndpointValue(spec.dep.storage.endpoint)
  {
    map["conf" := ConfData(spec.conf.data),
        "etcd-endpoints" := EndpointList(spec.dep.etcd.endpoints),
        "pulsar-endpoint" := EndpointValue(spec.dep.pulsar.endpoint),
        "storage-endpoint" := EndpointValue(spec.dep.storage.endpoint)]
  }

  /** The record hashed for a standalone deployment: as for a cluster, without a message bus. */
  function MilvusConfCheckSumRecord(spec: MilvusSpec): (rec: ChecksumRecord)
    ensures rec.Keys == {"conf", "etcd-endpoints", "storage-endpoint"}
    ensures rec["conf"] == ConfData(spec.conf.data)
    ensures rec["etcd-endpoints"] == EndpointList(spec.dep.etcd.endpoints)
    ensures rec["storage-endpoint"] == EndpointValue(spec.dep.storage.endpoint)
  {
    map["conf" := ConfData(spec.conf.data),
        "etcd-endpoints" := EndpointList(spec.dep.etcd.endpoints),
        "storage-endpoint" := EndpointValue(spec.dep.storage.endpoint)]
  }

  /**
   * `GetConfCheckSum`: the hash (`checkSum`) of the serialised record
   * (`marshal`); the empty string when serialisation fails.
   */
  function GetConfCheckSum(spec: MilvusClusterSpec, marshal: ChecksumRecord -> Option<Bytes>, checkSum: Bytes -> string): (sum: string)
    ensures marshal(ConfCheckSumRecord(spec)).None? ==> sum == ""
    ensures marshal(ConfCheckSumRecord(spec)).Some? ==> sum == checkSum(marshal(ConfCheckSumRecord(spec)).value)
  {
    match marshal(ConfCheckSumRecord(spec))
    case None => ""
    case Some(b) => checkSum(b)
  }

  /** `GetMilvusConfCheckSum`: as `GetConfCheckSum`, over the standalone record. */
  function GetMilvusConfCheckSum(spec: MilvusSpec, marshal: ChecksumRecord -> Option<Bytes>, checkSum: Bytes -> string): (sum: string)
    ensures marshal(MilvusConfCheckSumRecord(spec)).None? ==> sum == ""
    ensures marshal(MilvusConfCheckSumRecord(spec)).Some? ==> sum == checkSum(marshal(MilvusConfCheckSumRecord(spec)).value)
  {
    match marshal(MilvusConfCheckSumRecord(spec))
    case None => ""
    case Some(b) => checkSum(b)
  }

  /**
   * The cluster record captures exactly the configuration and the
   * dependencies: two specs give the same record iff those agree.
   */
  lemma ConfCheckSumRecordExact(s1: MilvusClusterSpec, s2: MilvusClusterSpec)
    ensures ConfCheckSumRecord(s1) == ConfCheckSumRecord(s2) <==> (s1.conf == s2.conf && s1.dep == s2.dep)
  {
    if ConfCheckSumRecord(s1) == ConfCheckSumRecord(s2) {
      assert ConfCheckSumRecord(s1)["conf"] == ConfCheckSumRecord(s2)["conf"];
      assert ConfCheckSumRecord(s1)["etcd-endpoints"] == ConfCheckSumRecord(s2)["etcd-endpoints"];
      assert ConfCheckSumRecord(s1)["pulsar-endpoint"] == ConfCheckSumRecord(s2)["pulsar-endpoint"];
      assert ConfCheckSumRecord(s1)["storage-endpoint"] == ConfCheckSumRecord(s2)["storage-endpoint"];
    }
  }

  /** The standalone record likewise captures exactly its configuration and dependencies. */
  lemma MilvusConfCheckSumRecordExact(s1: MilvusSpec, s2: MilvusSpec)
    ensures MilvusConfCheckSumRecord(s1) == MilvusConfCheckSumRecord(s2) <==> (s1.conf == s2.conf && s1.dep == s2.dep)
  {
    if MilvusConfCheckSumRecord(s1) == MilvusConfCheckSumRecord(s2) {
      assert MilvusConfCheckSumRecord(s1)["conf"] == MilvusConfCheckSumRecord(s2)["conf"];
      assert MilvusConfCheckSumRecord(s1)["etcd-endpoints"] == MilvusConfCheckSumRecord(s2)["etcd-endpoints"];
      assert MilvusConfCheckSumRecord(s1)["storage-endpoint"] == MilvusConfCheckSumRecord(s2)["storage-endpoint"];
    }
  }

  /**
   * The checksum depends on nothing but the configuration and the
   * dependencies: the component overrides never change it.
   */
  lemma ConfCheckSumIgnoresComponents(s1: MilvusClusterSpec, s2: MilvusClusterSpec,
                                      marshal: ChecksumRecord -> Option<Bytes>, checkSum: Bytes -> string)
    requires s1.conf == s2.conf && s1.dep == s2.dep
    ensures GetConfCheckSum(s1, marshal, checkSum) == GetConfCheckSum(s2, marshal, checkSum)
  {
    ConfCheckSumRecordExact(s1, s2);
  }

  /** With the same configuration, etcd and storage, the standalone record is the cluster record minus the message bus. */
  lemma StandaloneRecordOmitsPulsar(cluster: MilvusClusterSpec, standalone: MilvusSpec)
    requires standalone.conf == cluster.conf
    requires standalone.dep.etcd == cluster.dep.etcd && standalone.dep.storage == cluster.dep.storage
    ensures MilvusConfCheckSumRecord(standalone) == ConfCheckSumRecord(cluster) - {"pulsar-endpoint"}
  {
    var s, c := MilvusConfCheckSumRecord(standalone), ConfCheckSumRecord(cluster) - {"pulsar-endpoint"};
    assert s.Keys == c.Keys;
    forall k | k in s.Keys ensures s[k] == c[k] {
    }
  }
}
