# Milvus operator: component capability model

This project models the component capability model of the Milvus operator
(`pkg/controllers/components.go`) in Dafny and proves properties of it.

The model has a fixed registry of Milvus roles: four coordinators (`rootcoord`,
`datacoord`, `querycoord`, `indexcoord`), three worker nodes (`datanode`,
`querynode`, `indexnode`), the `proxy`, and the standalone `milvus` role. Each
role is described by a name, the field of the cluster spec that holds its
block, and a default port. Around the registry sit pure functions. Given a role
and a `MilvusClusterSpec`, they compute that role's deployment settings:

- image, pull secrets, pull policy, tolerations, node selector and resources,
  taken from the role's block, then the cluster-wide block, then a default;
- replicas and port;
- environment, with a synthetic `CACHE_SIZE` entry;
- instance, deployment and service names;
- container ports, service ports and service type;
- rolling or recreate deployment strategy;
- liveness and readiness probes;
- the records whose serialisation is hashed into the configuration checksum.

Files:

- `wrappers.dfy`: `Option`, which stands for Go's nil pointers and nil maps.
- `kube_types.dfy`: the fields of the Kubernetes API records these functions
  set or read (ports, probes, env vars, strategies, resources).
- `cluster_spec.dfy`: the Milvus custom-resource records they read.
- `precedence.dfy`: `FirstSet`, the reference definition of the override
  order. Layers are listed highest first and the first set layer wins. The six
  override resolvers (image, pull secrets, pull policy, tolerations, node
  selector, resources) and the port are proved to agree with it.
- `components.dfy`: the registry and every resolver.

The Go code finds a role's block by reflection on its field name. The model
replaces this with an explicit `match` over the role (`RoleComponent`). It is
proved to pick the block that a lookup by field name finds (`FieldByName`).

The standalone role's field name is empty. A reflective lookup of it panics in
Go. So every function that reads a role's block requires a cluster role (the
`IsClusterRole` precondition), and that includes the port and port-list
functions. Names, service type, deployment strategy and the coordinator/node
tests apply to all nine roles.

Notes on the code's behaviour:

- Replicas are read from the role's block only. There is no cluster-wide or
  default replica count.
- The port has no cluster-wide layer: it is the role's port if non-zero, else
  the role's default.
- Image, pull secrets and tolerations fall back to the cluster-wide value as it
  is, even when that value is empty. There is no built-in default.
- Which side wins when `CACHE_SIZE` is also given explicitly is decided by
  `MergeEnvVar`, which is not part of this model.

## Model

| member | source | states |
|---|---|---|
| `Precedence.FirstSet` | pkg/controllers/components.go:119-130 | the result is unset iff no layer is set; otherwise it is the first set layer, scanning from the highest precedence |
| `Precedence.FirstSetSkipsUnset` | pkg/controllers/components.go:119-130 | unset layers ahead of the others do not change the resolved value |
| `Precedence.FirstSetIgnoresLower` | pkg/controllers/components.go:119-130 | once some upper layer is set, whatever lower layers follow is irrelevant |
| `Precedence.UpperOfTwoDecides` | pkg/controllers/components.go:121-128 | with two layers, a set upper layer is the result whatever the lower layer holds |
| `Components.Descriptor` | pkg/controllers/components.go:61-73 | only the standalone entry has an empty field name; it shares the proxy's port; every default port is positive; no role is named like the metrics port |
| `Components.RegistryListsClusterRoles` | pkg/controllers/components.go:75-82 | the component list holds exactly the eight cluster roles, each once, and includes every coordinator |
| `Components.DescriptorsAreDistinct` | pkg/controllers/components.go:61-73 | role names and field names identify the role; only the standalone role has an empty field name |
| `Components.IsCoord` | pkg/controllers/components.go:84-87 | true exactly for the four roles in `MilvusCoords` |
| `Components.IsNode` | pkg/controllers/components.go:89-92 | true exactly for datanode, querynode and indexnode |
| `Components.CoordRoles` | pkg/controllers/components.go:84-87 | a registry name ends in "coord" exactly for the four roles in `MilvusCoords` |
| `Components.NodeRoles` | pkg/controllers/components.go:89-92 | a registry name ends in "node" exactly for datanode, querynode and indexnode |
| `Components.CoordIsNotNode` | pkg/controllers/components.go:84-92 | no registry name ends in both "coord" and "node" |
| `Components.FieldByName` | pkg/controllers/components.go:274-277 | a reflective lookup by field name finds a block exactly for the eight cluster field names |
| `Components.RoleComponent` | pkg/controllers/components.go:273-278 | the per-role dispatch returns the block that the lookup by the role's field name finds |
| `Components.RoleSpec` | pkg/controllers/components.go:273-278 | the overrides of the block that the lookup by the role's field name finds; that lookup always succeeds for a cluster role |
| `Components.GetImage` | pkg/controllers/components.go:166-174 | the role's image when non-empty, otherwise the cluster-wide image unchanged; equals the first-set resolution |
| `Components.GetImagePullSecrets` | pkg/controllers/components.go:110-117 | the role's secrets when non-empty, otherwise the cluster-wide secrets unchanged |
| `Components.GetImagePullPolicy` | pkg/controllers/components.go:119-130 | role policy if set, else cluster-wide policy if set, else `IfNotPresent` |
| `Components.GetTolerations` | pkg/controllers/components.go:132-140 | the role's tolerations when non-empty, otherwise the cluster-wide ones unchanged |
| `Components.GetNodeSelector` | pkg/controllers/components.go:142-150 | the role's selector whenever it is non-nil, even if empty; otherwise the cluster-wide one, which may be nil |
| `Components.GetResources` | pkg/controllers/components.go:152-164 | role requirements if set, else cluster-wide if set, else empty requirements |
| `Components.GetReplicas` | pkg/controllers/components.go:176-183 | the replica count of the block found by the role's field name; no fallback |
| `Components.GetComponentPort` | pkg/controllers/components.go:259-271 | the role's port when non-zero, else the role's default port; equals the first-set resolution with the default as fallback; never zero |
| `Components.UnsetRoleFallsBack` | pkg/controllers/components.go:110-183 | a role whose block sets nothing gets every attribute from the cluster-wide block or the default; no replicas; its default port |
| `Components.RoleOverridesShadowCommon` | pkg/controllers/components.go:110-183 | whatever the role sets itself stays the same for any replacement of the cluster-wide block |
| `Components.EnvWithCacheSize` | pkg/controllers/components.go:96-105 | the role's env unchanged, followed by one `CACHE_SIZE` entry reading `limits.memory` with divisor 1Gi; exactly one more `CACHE_SIZE` entry than the role's env |
| `Components.GetEnv` | pkg/controllers/components.go:94-108 | the merge receives the cluster-wide env first and the role env plus `CACHE_SIZE` second |
| `Components.GetInstanceName` | pkg/controllers/components.go:190-193 | `<instance>-milvus-<role name>`, which ends in the role name |
| `Components.GetDeploymentInstanceName` | pkg/controllers/components.go:195-198 | the deployment name equals the instance name |
| `Components.GetServiceInstanceName` | pkg/controllers/components.go:200-206 | `<instance>-milvus` for the proxy; the instance name for every other role |
| `Components.GetContainerName` | pkg/controllers/components.go:208-211 | the role's name, which never clashes with the metrics port name |
| `Components.InstanceNameInjective` | pkg/controllers/components.go:190-193 | two equal instance names have the same role and the same instance |
| `Components.ServiceNamesDistinct` | pkg/controllers/components.go:200-206 | within one instance, different roles get different service names |
| `Components.GetContainerPorts` | pkg/controllers/components.go:213-227 | exactly two TCP ports: the role's own (named after the role, on the effective port), then `metrics` on 9091 |
| `Components.GetServicePorts` | pkg/controllers/components.go:238-257 | one port for worker nodes, two otherwise; the role port first when present, `metrics` on 9091 always last |
| `Components.ServicePortsTargetContainerPorts` | pkg/controllers/components.go:213-257 | every service port targets a container port by name, with the same number and protocol; the role's own port is exposed iff the role is not a worker node |
| `Components.GetServiceType` | pkg/controllers/components.go:229-236 | `ClusterIP` for every role but the proxy; the proxy's type comes from its block |
| `Components.GetDeploymentStrategy` | pkg/controllers/components.go:345-359 | recreate with no rolling parameters iff the role is one of `MilvusCoords`; otherwise rolling with maxUnavailable 0 and maxSurge 1 |
| `Components.GetLivenessProbe` | pkg/controllers/components.go:311-326 | HTTP GET `/healthz` on the metrics port; delay 120s, timeout 3s, period 30s, failure threshold 2, success threshold 1 |
| `Components.GetReadinessProbe` | pkg/controllers/components.go:328-343 | identical to the liveness probe |
| `Components.ProbesTargetMetricsContainerPort` | pkg/controllers/components.go:311-343 | both probes hit a port every role's container declares under the name `metrics` |
| `Components.ConfCheckSumRecord` | pkg/controllers/components.go:281-286 | keys exactly `conf`, `etcd-endpoints`, `pulsar-endpoint`, `storage-endpoint`, holding the spec's values |
| `Components.MilvusConfCheckSumRecord` | pkg/controllers/components.go:297-301 | keys exactly `conf`, `etcd-endpoints`, `storage-endpoint` |
| `Components.GetConfCheckSum` | pkg/controllers/components.go:280-294 | `""` when serialising the record fails, otherwise the hash of the serialised record |
| `Components.GetMilvusConfCheckSum` | pkg/controllers/components.go:296-309 | the same for the standalone record |
| `Components.ConfCheckSumRecordExact` | pkg/controllers/components.go:281-286 | two cluster specs give equal records iff their configuration and dependencies are equal |
| `Components.MilvusConfCheckSumRecordExact` | pkg/controllers/components.go:297-301 | the same for standalone specs |
| `Components.ConfCheckSumIgnoresComponents` | pkg/controllers/components.go:281-294 | the checksum depends only on configuration and dependencies, never on the component blocks |
| `Components.StandaloneRecordOmitsPulsar` | pkg/controllers/components.go:281-309 | for equal configuration, etcd and storage, the standalone record is the cluster record minus `pulsar-endpoint` |

## Left out

- `String` (pkg/controllers/components.go:185-188) returns the role name, like `GetContainerName`. It is not a separate member.
- `MergeEnvVar`, `json.Marshal` and `util.CheckSum` are not part of this model. They are function parameters of `GetEnv`, `GetConfCheckSum` and `GetMilvusConfCheckSum`, so the model says nothing about their outputs.
- GetEnv: does not state which side wins when an env name appears on both sides, because that is decided inside `MergeEnvVar`.
- GetEnv: Go's `append` can write into the backing array of the role's own env slice when it has spare capacity. Values have no aliasing, so this is not captured.
- ConfCheckSumRecordExact: says a different configuration gives a different record. It does not say the hash differs, because the hash function is a parameter.
- Go distinguishes nil slices from empty ones. The model uses sequences, so the `null` versus `[]` serialisation of an unset etcd endpoint list is not captured. The resolvers only test `len`, so they are unaffected.
- Calling a spec-reading resolver with the standalone role panics in Go. This runtime panic is not modelled; the `IsClusterRole` precondition excludes the call instead.
- The Kubernetes records keep only the fields these functions set or read. `EnvVarSource` keeps only the resource-field reference. `Quantity` is a plain number, with no text format.
- Configuration values are JSON-like with integer numbers. Go holds them as `interface{}`, in practice `float64`, and floating point is not modelled.
- ConfCheckSumRecordExact: "configuration and dependencies" means the configuration data and the three dependency endpoints. The dependency records keep only those endpoints.
- `pkg/controllers/configmaps_test.go` and `pkg/controllers/status_milvus_test.go` test the config-map reconciler, the status syncer and the concurrent group runner. Their code is not part of this model: it is resource-store I/O and concurrency.
