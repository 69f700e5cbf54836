/** Properties of the vSphere CSI operator Deployment patcher. */
module VSphereProperties {
  import opened Wrappers
  import opened Kube
  import opened VSphere

  /** The join table has ten distinct keys, and OPERATOR_IMAGE names the operator component. */
  lemma ImageMapShape()
    ensures |ImageMap.Keys| == 10
    ensures ImageMap[OperatorImageKey] == "vsphere-csi-driver-operator"
  {
  }

  /** Recording one more resolved key before joining the rest is the same as joining it with the rest. */
  lemma JoinInsert(imageMap: map<string, string>, k0: string, keys: set<string>,
                   componentImages: map<string, string>, acc: map<string, string>)
    requires k0 in imageMap && imageMap[k0] in componentImages
    requires forall k :: k in keys ==> k in imageMap && imageMap[k] in componentImages
    ensures acc[k0 := componentImages[imageMap[k0]]] + Join(imageMap, keys, componentImages)
         == acc + Join(imageMap, keys + {k0}, componentImages)
  {
  }

  /**
   Running the join loop over any visiting order from a partial map: when
   every visited key resolves, the partial map is extended by exactly the
   resolved images of the visited keys; otherwise the retrieval error.
   */
  lemma {:induction false} VisitInOrderOutcome(imageMap: map<string, string>, order: seq<string>,
                                               componentImages: map<string, string>, acc: map<string, string>)
    requires forall k :: k in order ==> k in imageMap
    ensures VisitInOrder(imageMap, order, componentImages, acc) ==
      if forall k :: k in order ==> imageMap[k] in componentImages
      then Success(acc + Join(imageMap, (set k | k in order), componentImages))
      else Failure(RetrieveImageError(""))
    decreases |order|
  {
    if order == [] {
      assert Join(imageMap, (set k | k in order), componentImages) == map[];
      assert acc + map[] == acc;
    } else {
      var k0, tail := order[0], order[1..];
      assert forall k :: k in order <==> k == k0 || k in tail;
      if imageMap[k0] in componentImages {
        var acc' := acc[k0 := componentImages[imageMap[k0]]];
        VisitInOrderOutcome(imageMap, tail, componentImages, acc');
        if forall k :: k in tail ==> imageMap[k] in componentImages {
          assert (set k | k in order) == (set k | k in tail) + {k0};
          JoinInsert(imageMap, k0, (set k | k in tail), componentImages, acc);
        }
      }
    }
  }

  /**
   Order independence of the join: visiting the keys of the join table in
   any order that covers them yields the reference outcome, so success or
   failure and the resulting template map are the same for every order.
   */
  lemma JoinOrderIndependent(imageMap: map<string, string>, order: seq<string>, componentImages: map<string, string>)
    requires forall k :: k in order <==> k in imageMap
    ensures VisitInOrder(imageMap, order, componentImages, map[]) == TemplateMapOf(imageMap, componentImages)
  {
    VisitInOrderOutcome(imageMap, order, componentImages, map[]);
    if AllComponentsPresent(imageMap, componentImages) {
      assert (set k | k in order) == imageMap.Keys;
      assert map[] + Join(imageMap, imageMap.Keys, componentImages) == Join(imageMap, imageMap.Keys, componentImages);
    }
  }

  /** Two visiting orders of the same key set always agree. */
  lemma VisitOrdersAgree(imageMap: map<string, string>, order1: seq<string>, order2: seq<string>,
                         componentImages: map<string, string>)
    requires forall k :: k in order1 <==> k in imageMap
    requires forall k :: k in order2 <==> k in imageMap
    ensures VisitInOrder(imageMap, order1, componentImages, map[]) == VisitInOrder(imageMap, order2, componentImages, map[])
  {
    JoinOrderIndependent(imageMap, order1, componentImages);
    JoinOrderIndependent(imageMap, order2, componentImages);
  }

  /**
   The env overlay keeps the list's length and names in order, sets every
   entry whose name is a template-map key (duplicates included) to that
   key's image, and leaves every other entry as it was.
   */
  lemma {:induction false} OverlayEnvShape(env: seq<EnvVar>, templateMap: map<string, string>)
    ensures |OverlayEnv(env, templateMap)| == |env|
    ensures forall i :: 0 <= i < |env| ==> OverlayEnv(env, templateMap)[i].name == env[i].name
    ensures forall i :: 0 <= i < |env| && env[i].name in templateMap ==>
      OverlayEnv(env, templateMap)[i] == env[i].(value := templateMap[env[i].name])
    ensures forall i :: 0 <= i < |env| && env[i].name !in templateMap ==> OverlayEnv(env, templateMap)[i] == env[i]
  {
    forall i | 0 <= i < |env| {
      OverlayEnvAt(env, templateMap, i);
    }
  }

  /** Overlaying an already overlaid env list with the same map changes nothing. */
  lemma {:induction false} OverlayEnvIdempotent(env: seq<EnvVar>, templateMap: map<string, string>)
    ensures OverlayEnv(OverlayEnv(env, templateMap), templateMap) == OverlayEnv(env, templateMap)
  {
    var once := OverlayEnv(env, templateMap);
    forall i | 0 <= i < |env|
      ensures OverlayEnv(once, templateMap)[i] == once[i]
    {
      OverlayEnvAt(env, templateMap, i);
      OverlayEnvAt(once, templateMap, i);
    }
  }

  /**
   A missing component aborts the call with the constant retrieval error,
   whichever component is missing; the spec has already been reset to the
   template, and no env value, argument or image is patched.
   */
  lemma MissingComponentOutcome(template: DeploymentSpec, componentImages: map<string, string>)
    requires !AllComponentsPresent(ImageMap, componentImages)
    ensures Reconciled(template, componentImages)
         == Outcome(template, Some("unable to retrieve image  from release payload"))
  {
    MissingImageMessage();
  }

  /** With every component present but no container in the template, the call fails and writes no container field. */
  lemma NoContainersOutcome(template: DeploymentSpec, componentImages: map<string, string>)
    requires AllComponentsPresent(ImageMap, componentImages)
    requires template.containers == []
    ensures Reconciled(template, componentImages) == Outcome(template, Some("no containers in template"))
  {
  }

  /** The call succeeds exactly when every component resolves and the template has a container. */
  lemma SucceedsIff(template: DeploymentSpec, componentImages: map<string, string>)
    ensures Reconciled(template, componentImages).err.None?
        <==> AllComponentsPresent(ImageMap, componentImages) && |template.containers| > 0
  {
  }

  /**
   Only the first container is touched: the container count is the
   template's, every container after the first equals the template's, and
   the first keeps its name. On failure the spec is the template itself.
   */
  lemma OnlyFirstContainerPatched(template: DeploymentSpec, componentImages: map<string, string>)
    ensures |Reconciled(template, componentImages).spec.containers| == |template.containers|
    ensures forall i :: 1 <= i < |template.containers| ==>
      Reconciled(template, componentImages).spec.containers[i] == template.containers[i]
    ensures |template.containers| > 0 ==>
      Reconciled(template, componentImages).spec.containers[0].name == template.containers[0].name
    ensures Reconciled(template, componentImages).err.Some? ==> Reconciled(template, componentImages).spec == template
  {
  }

  /**
   On success the first container carries the fixed arguments, the
   operator's image, and the template's env list with every ImageMap-named
   entry set to its component's image and every other entry unchanged.
   */
  lemma FirstContainerOnSuccess(template: DeploymentSpec, componentImages: map<string, string>)
    requires AllComponentsPresent(ImageMap, componentImages)
    requires |template.containers| > 0
    ensures var c := Reconciled(template, componentImages).spec.containers[0];
      var env := template.containers[0].env;
      && c.args == ["start", "--listen=0.0.0.0:8445", "-v=4"]
      && c.image == componentImages["vsphere-csi-driver-operator"]
      && |c.env| == |env|
      && (forall i :: 0 <= i < |env| ==> c.env[i].name == env[i].name)
      && (forall i :: 0 <= i < |env| && env[i].name in ImageMap ==>
            c.env[i].value == componentImages[ImageMap[env[i].name]])
      && (forall i :: 0 <= i < |env| && env[i].name !in ImageMap ==> c.env[i] == env[i])
  {
    var templateMap := TemplateMapOf(ImageMap, componentImages).value;
    ImageMapShape();
    OverlayEnvShape(template.containers[0].env, templateMap);
  }

  /**
   The patched spec is a fixed point: reconciling again with the patched
   spec as the template reproduces the same outcome.
   */
  lemma ReconcileFixpoint(template: DeploymentSpec, componentImages: map<string, string>)
    requires Reconciled(template, componentImages).err.None?
    ensures Reconciled(Reconciled(template, componentImages).spec, componentImages)
         == Reconciled(template, componentImages)
  {
    var templateMap := TemplateMapOf(ImageMap, componentImages).value;
    OverlayEnvIdempotent(template.containers[0].env, templateMap);
  }

  /**
   Reconciling twice with the same inputs, whatever the Deployment held
   before, leaves the same spec and returns the same error.
   */
  method ReconcileTwice(controller: Deployment, template: DeploymentSpec,
                        hcp: HostedControlPlane, componentImages: map<string, string>)
    returns (first: Option<string>, second: Option<string>)
    modifies controller
    ensures first == second
    ensures controller.spec == Reconciled(template, componentImages).spec
  {
    first := ReconcileOperatorDeployment(controller, template, hcp, componentImages);
    ghost var afterFirst := controller.spec;
    second := ReconcileOperatorDeployment(controller, template, hcp, componentImages);
    assert controller.spec == afterFirst;
  }
}
