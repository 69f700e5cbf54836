/** Failure-compatible wrappers used for the patcher's error returns. */
module Wrappers {
  datatype Option<+T> = None | Some(value: T)

  datatype Result<+R, +E> = Success(value: R) | Failure(error: E)
}

/**
 The slice of the Kubernetes object model that the vSphere CSI operator
 patcher reads or writes. Everything else in a Deployment is carried along
 verbatim by the deep copy and is not represented.
 */
module Kube {
  import opened Wrappers

  /** One `corev1.EnvVar` entry; only its name and literal value matter here. */
  datatype EnvVar = EnvVar(name: string, value: string)

  /** A `corev1.Container`, reduced to the fields the patcher touches. */
  datatype Container = Container(name: string, image: string, args: seq<string>, env: seq<EnvVar>)

  /** A Deployment's spec, reduced to `Spec.Template.Spec.Containers`. */
  datatype DeploymentSpec = DeploymentSpec(containers: seq<Container>)

  /** The parent object whose owner reference the Deployment receives. */
  datatype HostedControlPlane = HostedControlPlane(namespace: string, name: string, uid: string)

  /** The owner reference derived from a HostedControlPlane (`config.OwnerRefFrom`); its fields are opaque. */
  datatype OwnerRef = OwnerRefFrom(parent: HostedControlPlane)

  /** Go's two-result map index `v, ok := m[k]`: the zero value "" and false when `k` is absent. */
  function GoMapIndex(m: map<string, string>, k: string): (r: (string, bool))
  {
    if k in m then (m[k], true) else ("", false)
  }

  /** The spec with its first container replaced, as a write through `&containers[0]` does. */
  function WithFirstContainer(spec: DeploymentSpec, c: Container): (r: DeploymentSpec)
    requires |spec.containers| > 0
  {
    spec.(containers := spec.containers[0 := c])
  }

  /** The container with `Env[idx].Value` overwritten. */
  function WithEnvValue(c: Container, idx: nat, value: string): (r: Container)
    requires idx < |c.env|
  {
    c.(env := c.env[idx := c.env[idx].(value := value)])
  }

  /** A live `appsv1.Deployment` object, updated in place by the reconciler. */
  class Deployment {
    var name: string
    var namespace: string
    var spec: DeploymentSpec
    var owner: Option<OwnerRef>

    /** A Deployment carrying only its identity, as the caller builds it before the upsert. */
    constructor (name: string, namespace: string)
      ensures this.name == name && this.namespace == namespace
      ensures spec == DeploymentSpec([]) && owner == None
    {
      this.name := name;
      this.namespace := namespace;
      spec := DeploymentSpec([]);
      owner := None;
    }
  }
}
