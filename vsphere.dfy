/**
 The vSphere CSI driver operator Deployment patcher: it resets a Deployment's
 spec to the cached template, resolves ten image references from the release
 payload and writes them into the first container.
 */
module VSphere {
  import opened Wrappers
  import opened Kube

  /** Env-var name to release component name, fixed at compile time. */
  const ImageMap: map<string, string> := map[
    "DRIVER_IMAGE" := "vsphere-csi-driver",
    "PROVISIONER_IMAGE" := "csi-external-provisioner",
    "ATTACHER_IMAGE" := "csi-external-attacher",
    "RESIZER_IMAGE" := "csi-external-resizer",
    "SNAPSHOTTER_IMAGE" := "csi-external-snapshotter",
    "NODE_DRIVER_REGISTRAR_IMAGE" := "csi-node-driver-registrar",
    "LIVENESS_PROBE_IMAGE" := "csi-livenessprobe",
    "VMWARE_VSPHERE_SYNCER_IMAGE" := "vsphere-csi-driver-syncer",
    "KUBE_RBAC_PROXY_IMAGE" := "kube-rbac-proxy",
    "OPERATOR_IMAGE" := "vsphere-csi-driver-operator"
  ]

  /** The key whose resolved image becomes the container's own image. */
  const OperatorImageKey := "OPERATOR_IMAGE"

  /** The arguments the first container is always given. */
  const OperatorArgs: seq<string> := ["start", "--listen=0.0.0.0:8445", "-v=4"]

  const NoContainersError := "no containers in template"

  /** The retrieval error, formatted with the looked-up image. */
  function RetrieveImageError(image: string): (r: string)
  {
    "unable to retrieve image " + image + " from release payload"
  }

  /** The retrieval error as the join produces it: formatted with the empty image of the failed lookup. */
  lemma MissingImageMessage()
    ensures RetrieveImageError("") == "unable to retrieve image  from release payload"
  {
  }

  /** Every component that ImageMap refers to has an image in the release payload. */
  predicate AllComponentsPresent(imageMap: map<string, string>, componentImages: map<string, string>)
  {
    forall k :: k in imageMap ==> imageMap[k] in componentImages
  }

  /** The resolved images of the given env-var names. */
  function Join(imageMap: map<string, string>, keys: set<string>, componentImages: map<string, string>)
    : (r: map<string, string>)
    requires forall k :: k in keys ==> k in imageMap && imageMap[k] in componentImages
  {
    map k | k in keys :: componentImages[imageMap[k]]
  }

  /** Adding one resolved key to a join gives the join over one more key. */
  lemma JoinExtend(imageMap: map<string, string>, keys: set<string>, k0: string, componentImages: map<string, string>)
    requires forall k :: k in keys ==> k in imageMap && imageMap[k] in componentImages
    requires k0 in imageMap && imageMap[k0] in componentImages
    ensures Join(imageMap, keys, componentImages)[k0 := componentImages[imageMap[k0]]]
         == Join(imageMap, keys + {k0}, componentImages)
  {
  }

  /**
   Reference definition of the join: the template map when every component
   resolves, otherwise the retrieval error. The error is built from the
   zero value of the failed lookup, so it never names the component.
   */
  function TemplateMapOf(imageMap: map<string, string>, componentImages: map<string, string>)
    : (r: Result<map<string, string>, string>)
  {
    if AllComponentsPresent(imageMap, componentImages) then
      Success(Join(imageMap, imageMap.Keys, componentImages))
    else
      Failure(RetrieveImageError(""))
  }

  /**
   The join loop run over the keys in the given visiting order, starting
   from the partial map `templateMap`, stopping at the first missing
   component. A success extends the partial map by exactly the visited keys,
   each bound to its component's image; a failure carries the retrieval error.
   */
  function VisitInOrder(imageMap: map<string, string>, order: seq<string>, componentImages: map<string, string>,
                        templateMap: map<string, string>): (r: Result<map<string, string>, string>)
    requires forall k :: k in order ==> k in imageMap
    ensures r.Success? <==> forall k :: k in order ==> imageMap[k] in componentImages
    ensures r.Success? ==> r.value.Keys == templateMap.Keys + (set k | k in order)
    ensures r.Success? ==> forall k :: k in order ==> r.value[k] == componentImages[imageMap[k]]
    ensures r.Success? ==> forall k :: k in templateMap && k !in order ==> r.value[k] == templateMap[k]
    ensures r.Failure? ==> r.error == RetrieveImageError("")
  {
    if order == [] then Success(templateMap)
    else
      var (image, present) := GoMapIndex(componentImages, imageMap[order[0]]);
      if !present then Failure(RetrieveImageError(image))
      else VisitInOrder(imageMap, order[1..], componentImages, templateMap[order[0] := image])
  }

  /**
   Builds the template map by visiting the ImageMap keys in an arbitrary
   order, as Go's randomised map iteration does; the result is the same
   for every order.
   */
  method BuildTemplateMap(imageMap: map<string, string>, componentImages: map<string, string>)
    returns (r: Result<map<string, string>, string>)
    ensures r == TemplateMapOf(imageMap, componentImages)
    ensures r.Success? <==> AllComponentsPresent(imageMap, componentImages)
    ensures r.Success? ==> r.value.Keys == imageMap.Keys
    ensures r.Success? ==> forall k :: k in imageMap ==> r.value[k] == componentImages[imageMap[k]]
    ensures r.Failure? ==> r.error == RetrieveImageError("")
  {
    var templateMap: map<string, string> := map[];
    var unvisited := imageMap.Keys;
    while unvisited != {}
      invariant unvisited <= imageMap.Keys
      invariant forall k :: k in imageMap && k !in unvisited ==> imageMap[k] in componentImages
      invariant templateMap == Join(imageMap, imageMap.Keys - unvisited, componentImages)
      decreases unvisited
    {
      var key :| key in unvisited;
      var imageName := imageMap[key];
      var (image, present) := GoMapIndex(componentImages, imageName);
      if !present {
        assert !AllComponentsPresent(imageMap, componentImages) && image == "";
        return Failure(RetrieveImageError(image));
      }
      JoinExtend(imageMap, imageMap.Keys - unvisited, key, componentImages);
      assert imageMap.Keys - (unvisited - {key}) == (imageMap.Keys - unvisited) + {key};
      templateMap := templateMap[key := image];
      unvisited := unvisited - {key};
    }
    assert imageMap.Keys - unvisited == imageMap.Keys;
    return Success(templateMap);
  }

  /** One env entry after the overlay: its value replaced when its name is a template-map key. */
  function OverlayEntry(e: EnvVar, templateMap: map<string, string>): (r: EnvVar)
  {
    var (image, present) := GoMapIndex(templateMap, e.name);
    if present then e.(value := image) else e
  }

  /** The env list after the overlay loop, entry by entry in order. */
  function OverlayEnv(env: seq<EnvVar>, templateMap: map<string, string>): (r: seq<EnvVar>)
    ensures |r| == |env|
  {
    if env == [] then []
    else OverlayEnv(env[..|env| - 1], templateMap) + [OverlayEntry(env[|env| - 1], templateMap)]
  }

  /** The overlay works entry by entry: entry `i` of the result depends only on entry `i` of the input. */
  lemma {:induction false} OverlayEnvAt(env: seq<EnvVar>, templateMap: map<string, string>, i: nat)
    requires i < |env|
    ensures OverlayEnv(env, templateMap)[i] == OverlayEntry(env[i], templateMap)
  {
    if i < |env| - 1 {
      OverlayEnvAt(env[..|env| - 1], templateMap, i);
    }
  }

  /** OverlayEnvAt for every index at once. */
  lemma OverlayEnvPointwise(env: seq<EnvVar>, templateMap: map<string, string>)
    ensures forall i :: 0 <= i < |env| ==> OverlayEnv(env, templateMap)[i] == OverlayEntry(env[i], templateMap)
  {
    forall i | 0 <= i < |env| {
      OverlayEnvAt(env, templateMap, i);
    }
  }

  /**
   The first container after the env overlay and the Args and Image
   assignments: it keeps its name, its env list is overlaid entry by entry,
   it gets the fixed arguments, and its image is the OPERATOR_IMAGE entry
   ("" when absent, as a Go map read gives).
   */
  function PatchContainer(c: Container, templateMap: map<string, string>): (r: Container)
    ensures r.name == c.name && r.args == OperatorArgs
    ensures r.image == if OperatorImageKey in templateMap then templateMap[OperatorImageKey] else ""
    ensures |r.env| == |c.env|
    ensures forall i :: 0 <= i < |c.env| ==> r.env[i] == OverlayEntry(c.env[i], templateMap)
  {
    OverlayEnvPointwise(c.env, templateMap);
    c.(env := OverlayEnv(c.env, templateMap),
       args := OperatorArgs,
       image := GoMapIndex(templateMap, OperatorImageKey).0)
  }

  /** What the patcher leaves in the Deployment's spec, and the error it returns (None for nil). */
  datatype Outcome = Outcome(spec: DeploymentSpec, err: Option<string>)

  /** The outcome of one reconciliation; it does not depend on the Deployment's prior spec. */
  function Reconciled(template: DeploymentSpec, componentImages: map<string, string>): (r: Outcome)
  {
    ReconciledWith(ImageMap, template, componentImages)
  }

  /**
   Reconciled, for a join table given as a parameter. It succeeds exactly
   when every component resolves and the template has a container; on
   failure the spec is the template; the container count never changes.
   */
  function ReconciledWith(imageMap: map<string, string>, template: DeploymentSpec,
                          componentImages: map<string, string>): (r: Outcome)
    ensures r.err.None? <==> AllComponentsPresent(imageMap, componentImages) && |template.containers| > 0
    ensures r.err.Some? ==> r.spec == template
    ensures |r.spec.containers| == |template.containers|
  {
    match TemplateMapOf(imageMap, componentImages)
    case Failure(e) => Outcome(template, Some(e))
    case Success(templateMap) =>
      if |template.containers| == 0 then Outcome(template, Some(NoContainersError))
      else Outcome(WithFirstContainer(template, PatchContainer(template.containers[0], templateMap)), None)
  }

  /**
   `reconcileOperatorDeployment`: the mutate callback that the upsert of the
   operator Deployment runs. `template` is the spec of the cached, decoded
   template Deployment. That the cached template is never modified follows
   here from value semantics; in the source it rests on the deep copy.
   */
  method ReconcileOperatorDeployment(controller: Deployment, template: DeploymentSpec,
                                     hcp: HostedControlPlane, componentImages: map<string, string>)
    returns (err: Option<string>)
    modifies controller
    ensures controller.spec == Reconciled(template, componentImages).spec
    ensures err == Reconciled(template, componentImages).err
    ensures controller.owner == if err.None? then Some(OwnerRefFrom(hcp)) else old(controller.owner)
    ensures controller.name == old(controller.name) && controller.namespace == old(controller.namespace)
  {
    err := ReconcileWith(controller, template, hcp, ImageMap, componentImages);
  }

  /**
   The body of ReconcileOperatorDeployment, for a join table given as a
   parameter; ReconcileOperatorDeployment passes the fixed ImageMap.
   */
  method ReconcileWith(controller: Deployment, template: DeploymentSpec, hcp: HostedControlPlane,
                       imageMap: map<string, string>, componentImages: map<string, string>)
    returns (err: Option<string>)
    modifies controller
    ensures controller.spec == ReconciledWith(imageMap, template, componentImages).spec
    ensures err == ReconciledWith(imageMap, template, componentImages).err
    ensures controller.owner == if err.None? then Some(OwnerRefFrom(hcp)) else old(controller.owner)
    ensures controller.name == old(controller.name) && controller.namespace == old(controller.namespace)
  {
    controller.spec := template;

    var r := BuildTemplateMap(imageMap, componentImages);
    if r.Failure? {
      return Some(r.error);
    }
    var templateMap := r.value;

    var containers := controller.spec.containers;
    if |containers| == 0 {
      return Some(NoContainersError);
    }

    var envVars := containers[0].env;
    var idx := 0;
    while idx < |envVars|
      invariant 0 <= idx <= |envVars|
      invariant |controller.spec.containers| == |containers|
      invariant controller.spec == WithFirstContainer(template,
        containers[0].(env := controller.spec.containers[0].env))
      invariant |controller.spec.containers[0].env| == |envVars|
      invariant forall i :: 0 <= i < idx ==> controller.spec.containers[0].env[i] == OverlayEntry(envVars[i], templateMap)
      invariant forall i :: idx <= i < |envVars| ==> controller.spec.containers[0].env[i] == envVars[i]
      invariant controller.name == old(controller.name) && controller.namespace == old(controller.namespace)
      invariant controller.owner == old(controller.owner)
    {
      var (image, present) := GoMapIndex(templateMap, envVars[idx].name);
      if present {
        controller.spec := WithFirstContainer(controller.spec, WithEnvValue(controller.spec.containers[0], idx, image));
      }
      idx := idx + 1;
    }
    forall i | 0 <= i < |envVars|
      ensures controller.spec.containers[0].env[i] == OverlayEnv(envVars, templateMap)[i]
    {
      OverlayEnvAt(envVars, templateMap, i);
    }
    assert controller.spec.containers[0].env == OverlayEnv(envVars, templateMap);

    controller.spec := WithFirstContainer(controller.spec, controller.spec.containers[0].(args := OperatorArgs));
    controller.spec := WithFirstContainer(controller.spec,
      controller.spec.containers[0].(image := GoMapIndex(templateMap, OperatorImageKey).0));
    assert controller.spec == WithFirstContainer(template, PatchContainer(template.containers[0], templateMap));
    controller.owner := Some(OwnerRefFrom(hcp));
    return None;
  }
}
