# vSphere CSI driver operator: Deployment image patcher

This project models the mutate callback that HyperShift's control-plane
operator runs when it reconciles the vSphere CSI driver operator
Deployment on the management cluster (`reconcileOperatorDeployment`). The
callback works in five steps:

1. It overwrites the Deployment's spec with a deep copy of the cached template spec.
2. It joins a fixed ten-entry table of env-var names to release component names
   (`ImageMap`) against the release payload's component images. Go visits that
   table in random order. Any component without an image aborts the call.
3. It fails when the template has no containers.
4. It overlays the resolved images onto the first container's env list. The
   update is in place and touches only entries whose name matches.
5. It sets the container's arguments and its image, then applies the owner
   reference of the HostedControlPlane.

Layout:

- `kube.dfy`: module `Wrappers` holds `Option` and `Result`. Module `Kube` holds
  the slice of the object model the callback touches: env vars, containers, the
  spec's container list, the owner reference, and a `Deployment` class whose
  fields the callback updates.
- `vsphere.dfy`: module `VSphere` holds the constants and the join. The join is
  a method that visits keys in an arbitrary order, plus two functions: a
  reference definition, and the loop run in a given order. It also holds the env
  overlay, the specification function `Reconciled`, and the imperative
  `ReconcileOperatorDeployment`.
- `properties.dfy`: module `VSphereProperties` holds the lemmas. They cover order
  independence, the error paths, the shape of the env overlay, which containers
  are touched, the fixed arguments and image, and idempotence.

The cached template Deployment is a parameter (`template`), not a concrete
value. The YAML it is decoded from is not part of this model. Taking it as a
parameter also lets the model state the zero-container error path. That the
cached template is never changed by the patch follows, in the model, from the
value semantics of specs. In Go it rests on the `DeepCopy` at line 134.

The method `ReconcileOperatorDeployment` passes the fixed `ImageMap` to
`ReconcileWith`, which holds the body with the table as a parameter. Keeping the
ten string literals out of the body's proof keeps that proof small. Nothing else
differs between the two.

The retrieval error is modelled as the code writes it. The lookup key
`imageName` holds the component name, but line 154 formats `image`. After a
failed lookup `image` is the empty zero value, so the message never names the
component. It is always "unable to retrieve image  from release payload" (two
spaces), whichever component is missing: see `MissingImageMessage` and
`MissingComponentOutcome`.

The join loop appears twice. `BuildTemplateMap` picks each next key with `:|`,
so its proof already covers every visiting order; its contract pins the result
to `TemplateMapOf`, which mentions no order. `VisitInOrder` states the same
fact explicitly: it is the loop run for one given order, and
`JoinOrderIndependent` proves that every covering order gives `TemplateMapOf`.

## Model

| member | source | states |
|---|---|---|
| `VSphere.BuildTemplateMap` | control-plane-operator/controllers/hostedcontrolplane/csi/vsphere/vsphere.go:149-157 | Keys are visited in an arbitrary order, yet the result always equals the reference join. It succeeds exactly when every ImageMap component has an image. On success it has exactly ImageMap's keys, and each key maps to `componentImages[ImageMap[k]]`. On failure its message is built from the empty image. |
| `VSphere.MissingImageMessage` | control-plane-operator/controllers/hostedcontrolplane/csi/vsphere/vsphere.go:152-154 | The retrieval error formatted with the failed lookup's zero value is the constant "unable to retrieve image  from release payload". |
| `VSphere.VisitInOrder` | control-plane-operator/controllers/hostedcontrolplane/csi/vsphere/vsphere.go:151-157 | The join loop run for one given visiting order from a partial map. It succeeds exactly when every visited key's component has an image. On success the result's keys are the partial map's plus the visited keys, each visited key maps to its component's image, and the other entries are kept. On failure the error is the message built from the empty image. |
| `VSphere.PatchContainer` | control-plane-operator/controllers/hostedcontrolplane/csi/vsphere/vsphere.go:163-177 | The first container after the patch. It keeps its name, its env list keeps its length and is overlaid entry by entry, its Args are the fixed three arguments, and its Image is the template map's `OPERATOR_IMAGE` entry, or "" when that entry is absent (a Go map read). |
| `VSphere.ReconciledWith` | control-plane-operator/controllers/hostedcontrolplane/csi/vsphere/vsphere.go:134-181 | The outcome of one call, as spec and error. It succeeds exactly when every component resolves and the template has a container. On any error the spec is the template copy. The container count is always the template's. |
| `VSphere.OverlayEnv` | control-plane-operator/controllers/hostedcontrolplane/csi/vsphere/vsphere.go:164-170 | The overlaid env list has the same length as the original. |
| `VSphere.OverlayEnvAt` | control-plane-operator/controllers/hostedcontrolplane/csi/vsphere/vsphere.go:164-170 | Entry i of the overlaid list is entry i of the original, with its value replaced by the template-map image exactly when its name is a key. |
| `VSphere.ReconcileOperatorDeployment` | control-plane-operator/controllers/hostedcontrolplane/csi/vsphere/vsphere.go:133-182 | After the call, the Deployment's spec and the returned error are those of `Reconciled(template, componentImages)`, whatever the Deployment held before. On success the owner becomes the HostedControlPlane's owner reference; on failure the owner is unchanged. Name and namespace are unchanged. |
| `VSphere.ReconcileWith` | control-plane-operator/controllers/hostedcontrolplane/csi/vsphere/vsphere.go:134-181 | The same body, for any join table. The spec is reset to the template, the env loop updates the first container in place entry by entry, then Args and Image are set. The final state and error equal `ReconciledWith`. |
| `VSphereProperties.ImageMapShape` | control-plane-operator/controllers/hostedcontrolplane/csi/vsphere/vsphere.go:136-147 | The join table has exactly ten keys, and `OPERATOR_IMAGE` maps to `vsphere-csi-driver-operator`. |
| `VSphereProperties.VisitInOrderOutcome` | control-plane-operator/controllers/hostedcontrolplane/csi/vsphere/vsphere.go:151-157 | Running the join loop over any visiting order from a partial map has one of two outcomes. If every visited key resolves, the partial map is extended by the resolved images of exactly the visited keys. Otherwise the result is the retrieval error. |
| `VSphereProperties.JoinOrderIndependent` | control-plane-operator/controllers/hostedcontrolplane/csi/vsphere/vsphere.go:151-157 | Every visiting order that covers the table's keys gives the reference join outcome: the same success or failure, and the same template map. |
| `VSphereProperties.VisitOrdersAgree` | control-plane-operator/controllers/hostedcontrolplane/csi/vsphere/vsphere.go:151-157 | Any two visiting orders of the table's keys give identical outcomes. |
| `VSphereProperties.OverlayEnvShape` | control-plane-operator/controllers/hostedcontrolplane/csi/vsphere/vsphere.go:163-170 | The overlay keeps the env list's length and its names in order. Every entry named by a template-map key gets that key's image, duplicates included. Every other entry is unchanged. |
| `VSphereProperties.OverlayEnvIdempotent` | control-plane-operator/controllers/hostedcontrolplane/csi/vsphere/vsphere.go:163-170 | Overlaying an already overlaid list with the same map changes nothing. |
| `VSphereProperties.MissingComponentOutcome` | control-plane-operator/controllers/hostedcontrolplane/csi/vsphere/vsphere.go:134-155 | If some ImageMap component has no image, the spec is the template copy (already reset at line 134) with nothing patched. The error is the constant message, which names no component. |
| `VSphereProperties.NoContainersOutcome` | control-plane-operator/controllers/hostedcontrolplane/csi/vsphere/vsphere.go:158-161 | With every component present and no container in the template, the error is "no containers in template" and the spec is the template, so no container field is written. |
| `VSphereProperties.SucceedsIff` | control-plane-operator/controllers/hostedcontrolplane/csi/vsphere/vsphere.go:149-161 | The call returns nil exactly when every component resolves and the template has at least one container. |
| `VSphereProperties.OnlyFirstContainerPatched` | control-plane-operator/controllers/hostedcontrolplane/csi/vsphere/vsphere.go:158-170 | The container count is the template's. Every container after the first equals the template's. The first keeps its name. On any error the spec is exactly the template. |
| `VSphereProperties.FirstContainerOnSuccess` | control-plane-operator/controllers/hostedcontrolplane/csi/vsphere/vsphere.go:163-177 | On success, the first container's Args are `["start", "--listen=0.0.0.0:8445", "-v=4"]` and its Image is `componentImages["vsphere-csi-driver-operator"]`. Its env list has the template's length and names. Entries named in ImageMap hold their component's image. All other entries are unchanged. |
| `VSphereProperties.ReconcileFixpoint` | control-plane-operator/controllers/hostedcontrolplane/csi/vsphere/vsphere.go:134-177 | On success, reconciling again with the patched spec as the template reproduces the same spec and the same nil error. |
| `VSphereProperties.ReconcileTwice` | control-plane-operator/controllers/hostedcontrolplane/csi/vsphere/vsphere.go:133-182 | Two calls with the same inputs return the same error and leave the spec `Reconciled` gives. |
| `Kube.Deployment.constructor` | control-plane-operator/controllers/hostedcontrolplane/csi/vsphere/vsphere.go:187-192 | A Deployment built by the caller carries only its name and namespace, an empty spec and no owner. |

## Left out

- The embedded manifest files, `getContentsOrDie` and the `must*` decoders (lines 22-131), and the package-level template objects they build. These are file reads and YAML decoding through library code, and they panic on failure. The decoded template spec is a parameter.
- `ReconcileInfra` (lines 186-218). It calls the external create-or-update helper for the Deployment and then for six static objects with a no-op mutate function. Only the constructor of the Deployment it builds is modelled.
- `config.OwnerRefFrom` and `ApplyTo`: these are helpers outside this file. The owner reference is an opaque value derived from the HostedControlPlane, and applying it sets the Deployment's single owner field. How the real helper merges it into an existing owner-reference list is not modelled.
- `DeepCopy`: the model's specs are values, so the copy is an assignment. The Go code updates `containers[0]` through a pointer into the slice it shares with `controller.Spec`. The model writes each update straight into the Deployment's spec, which has the same effect.
- The `ctx` parameter (unused by the callback) and all Kubernetes API and client behaviour.
- Deployment, container and env-var fields other than the ones the callback reads or writes (`EnvVar.ValueFrom`, replicas, volumes, …). The deep copy carries them verbatim.
