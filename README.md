# Kubernetes artifact replacer

A Dafny model of the artifact replacer in the Kubernetes provider of clouddriver. The
replacer scans a manifest for references to artifacts: container images, config maps named
in `envFrom`, and the scale target of a horizontal pod autoscaler. `findAll` reports each
reference as a candidate artifact. `replaceAll` rewrites each reference that a
caller-supplied artifact binds to, and returns the rewritten manifest together with the set
of artifacts it bound. The replacer's behaviour is pinned by its test suite,
`ArtifactReplacerTest.java`, so the model states that suite's contract for all inputs.

Modules, leaves first:

- `Wrappers`: `Option`, for the nullable fields.
- `ImageReference`: `ImageName`, which gives the name of an image reference, and `HasTag`.
- `Artifacts`: the artifact record, the type strings, and the scoping rule for types that
  start with `kubernetes/`.
- `Manifests`: the manifest shape (a Deployment or ReplicaSet pod template, or an
  autoscaler) and the shapes the tests build.
- `Replacers`: the three strategies `dockerImage`, `configMapEnv` and `hpaDeployment`, as a
  closed datatype. This module also holds what each strategy finds (`Candidates`), the
  binding policy (`Eligible`) and the choice of artifact (`Select`).
- `ArtifactReplacer`: `FindAll` and `Replaced`, which specify the two operations, and the
  method `ReplaceAll`. `ReplaceAll` loops over the replacers and, inside each replacer,
  over the containers and `envFrom` entries of a working copy. It accumulates the bound
  set and is proved equal to `Replaced`.
- `Scenarios`: each test of the suite as a lemma, with a general lemma behind each group
  of tests.

Decisions where the tests leave room:

- Image names. A reference containing `@` is cut at its first `@`. Otherwise the text
  from its last `:` onward is dropped, unless a `/` follows that colon (then the colon
  belonged to a registry port). The digest goes together with the `@`: the test table maps
  `clouddriver@sha256:9145` to `clouddriver` (ArtifactReplacerTest.java:136).
- Scoping applies only to artifacts whose type starts with `kubernetes/`.
  - An unset or empty `account` matches any ambient account.
  - An unset `location` counts as the empty namespace. It is not a wildcard: the test
    that binds a config map without a location passes an empty namespace.
- `match-name-only` binds an image only when the image carries no tag. A bare name counts
  as untagged, and so does any reference containing `@`, `name:tag@digest` included: such
  a reference has the name `name:tag` and is rebound under `match-name-only`.
- When several pool artifacts are eligible for one reference, the first in pool order
  binds. No test exercises this.
- `hpaDeployment` only discovers. Under `replaceAll` it rewrites nothing and binds nothing
  (`ArtifactReplacer.HpaReplacesNothing`).

## Model

| member | source | states |
|---|---|---|
| `ImageReference.ImageName` | clouddriver-kubernetes/src/test/java/com/netflix/spinnaker/clouddriver/kubernetes/artifact/ArtifactReplacerTest.java:124-139 | the name of an image reference; `ImageNameOfDigest` gives the cut at the first `@`, `ImageNameOfTagged` the dropped last-colon tag, `ImageNameOfUntagged` the references that are their own name, and `ImageNameIsPrefix` that the name is always a prefix of the reference |
| `ImageReference.HasTag` | clouddriver-kubernetes/src/test/java/com/netflix/spinnaker/clouddriver/kubernetes/artifact/ArtifactReplacerTest.java:200-219 | whether an image carries a tag of its own, the test `match-name-only` applies; `ImageNameIsPrefix` shows it holds exactly when there is no `@` and the name is shorter than the reference, `ImageNameOfTagged` that `name:tag` has one and `ImageNameOfDigest` that `name@digest` has none |
| `ImageReference.ImageNameIsPrefix` | clouddriver-kubernetes/src/test/java/com/netflix/spinnaker/clouddriver/kubernetes/artifact/ArtifactReplacerTest.java:124-139 | an image's name is a prefix of its reference, and equals the reference exactly when the reference has neither a digest nor a tag; `HasTag` holds exactly when there is no `@` and the name is shorter than the reference |
| `ImageReference.ImageNameOfDigest` | clouddriver-kubernetes/src/test/java/com/netflix/spinnaker/clouddriver/kubernetes/artifact/ArtifactReplacerTest.java:131-138 | for any `@`-free name, `name@digest` has the name `name` and no tag, even when the name holds a port or colon |
| `ImageReference.ImageNameOfTagged` | clouddriver-kubernetes/src/test/java/com/netflix/spinnaker/clouddriver/kubernetes/artifact/ArtifactReplacerTest.java:126-134 | for any `@`-free name and any tag without `:`, `/` or `@`, `name:tag` has the name `name` and carries a tag |
| `ImageReference.ImageNameOfUntagged` | clouddriver-kubernetes/src/test/java/com/netflix/spinnaker/clouddriver/kubernetes/artifact/ArtifactReplacerTest.java:135 | a reference without `@`, each of whose colons is followed by a `/`, is its own name and has no tag |
| `ImageReference.ImageNameTable` | clouddriver-kubernetes/src/test/java/com/netflix/spinnaker/clouddriver/kubernetes/artifact/ArtifactReplacerTest.java:124-139 | each of the twelve image/name pairs of the test table, gathered from one small helper lemma per row (`NameOfNginx112` and the others, which have no rows of their own) |
| `ImageReference.IndexOf` | clouddriver-kubernetes/src/test/java/com/netflix/spinnaker/clouddriver/kubernetes/artifact/ArtifactReplacerTest.java:136-138 | the result is the first position of the character, or -1 exactly when the character does not occur |
| `ImageReference.LastIndexOf` | clouddriver-kubernetes/src/test/java/com/netflix/spinnaker/clouddriver/kubernetes/artifact/ArtifactReplacerTest.java:126-134 | the result is the last position of the character, or -1 exactly when the character does not occur |
| `Artifacts.InScope` | clouddriver-kubernetes/src/test/java/com/netflix/spinnaker/clouddriver/kubernetes/artifact/ArtifactReplacerTest.java:221-393 | the scoping rule; `ArtifactReplacer.ConfigMapBindsExactlyInScope` shows a lone config-map artifact binds in any workload exactly when the rule holds, and `ArtifactReplacer.ImageBindsWhateverItsScope` that an image artifact binds whatever its location and account |
| `Manifests.ContainerWithImage` | clouddriver-kubernetes/src/test/java/com/netflix/spinnaker/clouddriver/kubernetes/artifact/ArtifactReplacerTest.java:440-447 | the container `getContainer` builds: named `container`, with the given image and no `envFrom` entries (its port is left out) |
| `Manifests.DeploymentOf` | clouddriver-kubernetes/src/test/java/com/netflix/spinnaker/clouddriver/kubernetes/artifact/ArtifactReplacerTest.java:457-480 | the deployment `getDeployment` builds: kind `Deployment`, name `my-app-deployment`, and the given containers and init containers in order (labels, selector and replica count are left out) |
| `Manifests.DeploymentWithContainer` | clouddriver-kubernetes/src/test/java/com/netflix/spinnaker/clouddriver/kubernetes/artifact/ArtifactReplacerTest.java:449-451 | a deployment whose only container is `ContainerWithImage(image)`, with no init containers |
| `Manifests.DeploymentWithInitContainer` | clouddriver-kubernetes/src/test/java/com/netflix/spinnaker/clouddriver/kubernetes/artifact/ArtifactReplacerTest.java:453-455 | a deployment with no containers and `ContainerWithImage(image)` as its only init container |
| `Manifests.EnvFromContainer` | clouddriver-kubernetes/src/test/java/com/netflix/spinnaker/clouddriver/kubernetes/artifact/ArtifactReplacerTest.java:488-499 | the replica set's container: unnamed (name `""`), without an image, with one `envFrom` entry naming the config map |
| `Manifests.ReplicaSetWithEnvFrom` | clouddriver-kubernetes/src/test/java/com/netflix/spinnaker/clouddriver/kubernetes/artifact/ArtifactReplacerTest.java:482-502 | the replica set `getReplicaSetWithEnvFrom` builds: kind `ReplicaSet`, name `my-app-deployment`, `EnvFromContainer(configMap)` as its only container and no init containers (the replica count is left out) |
| `Manifests.HpaOf` | clouddriver-kubernetes/src/test/java/com/netflix/spinnaker/clouddriver/kubernetes/artifact/ArtifactReplacerTest.java:425-438 | the autoscaler `getHpa` builds: name `my-hpa` and a scale target of the given kind and name (its namespace and the target's API version are left out) |
| `Replacers.Candidates` | clouddriver-kubernetes/src/test/java/com/netflix/spinnaker/clouddriver/kubernetes/artifact/ArtifactReplacerTest.java:68-120 | what one replacer finds in a manifest; `ArtifactReplacer.FindAllImages`, `FindAllConfigMaps` and `FindAllScaleTarget` characterise it in both directions for each replacer |
| `Replacers.Eligible` | clouddriver-kubernetes/src/test/java/com/netflix/spinnaker/clouddriver/kubernetes/artifact/ArtifactReplacerTest.java:166-393 | the binding policy: same type, same name, in scope, and an untagged image under `match-name-only`; `Replacers.Select` picks the first eligible artifact, `ArtifactReplacer.AppliedBindsCandidates` shows only artifacts it selects bind and `ArtifactReplacer.AppliedBindsSelected` that every selected one does |
| `Replacers.ImageCandidate` | clouddriver-kubernetes/src/test/java/com/netflix/spinnaker/clouddriver/kubernetes/artifact/ArtifactReplacerTest.java:99-103 | an image's candidate has type `docker/image`, the literal image as its reference, and the image's name, which is a prefix of the reference |
| `Replacers.ConfigMapCandidate` | clouddriver-kubernetes/src/test/java/com/netflix/spinnaker/clouddriver/kubernetes/artifact/ArtifactReplacerTest.java:273-297 | the candidate for a config map named in `envFrom`: type `kubernetes/configMap`, with the config map's name as both name and reference |
| `Replacers.TargetKindType` | clouddriver-kubernetes/src/test/java/com/netflix/spinnaker/clouddriver/kubernetes/artifact/ArtifactReplacerTest.java:68-89 | the scale-target kinds `hpaDeployment` recognises: `Deployment` maps to `kubernetes/deployment` and every other kind, `Unknown` included, to none, so `FindAllScaleTarget` finds nothing for it |
| `Replacers.Select` | clouddriver-kubernetes/src/test/java/com/netflix/spinnaker/clouddriver/kubernetes/artifact/ArtifactReplacerTest.java:166-181 | nothing is selected exactly when no pool artifact is eligible; otherwise the selected artifact is in the pool, is eligible, and no earlier pool artifact is eligible |
| `ArtifactReplacer.FindAll` | clouddriver-kubernetes/src/test/java/com/netflix/spinnaker/clouddriver/kubernetes/artifact/ArtifactReplacerTest.java:68-120 | the union of what the replacers find; `FindAllImages`, `FindAllConfigMaps` and `FindAllScaleTarget` state it in both directions |
| `ArtifactReplacer.Applied` | clouddriver-kubernetes/src/test/java/com/netflix/spinnaker/clouddriver/kubernetes/artifact/ArtifactReplacerTest.java:166-198 | one replacer's pass; `ApplyReplacer` is proved equal to it, `AppliedBindsSelected` shows every artifact `Select` chooses for a reference is written there and bound, and `AppliedBindsCandidates` that every bound artifact was chosen by `Select` for a reference the replacer finds, so the bound set is exactly the artifacts written; `AppliedUnbound` and `AppliedUnboundIsUnchanged` when it is a no-op |
| `ArtifactReplacer.Replaced` | clouddriver-kubernetes/src/test/java/com/netflix/spinnaker/clouddriver/kubernetes/artifact/ArtifactReplacerTest.java:152-393 | the passes in registration order; `ReplaceAll` is proved equal to it, and `ReplacedBindsFromPool`, `ReplacedUnboundIsUnchanged` and `ReplacedNoneEligible` state what it binds and when it changes nothing |
| `ArtifactReplacer.RewriteEach` | clouddriver-kubernetes/src/test/java/com/netflix/spinnaker/clouddriver/kubernetes/artifact/ArtifactReplacerTest.java:106-120 | a sequence pass keeps the length, and each position holds its own item's rewrite, so every container and init container is visited |
| `ArtifactReplacer.RewriteEachBound` | clouddriver-kubernetes/src/test/java/com/netflix/spinnaker/clouddriver/kubernetes/artifact/ArtifactReplacerTest.java:179-180 | a sequence pass binds exactly the artifacts its items bind |
| `ArtifactReplacer.EnvSourcesBound` | clouddriver-kubernetes/src/test/java/com/netflix/spinnaker/clouddriver/kubernetes/artifact/ArtifactReplacerTest.java:292-293 | the `envFrom` entries of a container bind exactly the union of what each entry binds |
| `ArtifactReplacer.ContainersBound` | clouddriver-kubernetes/src/test/java/com/netflix/spinnaker/clouddriver/kubernetes/artifact/ArtifactReplacerTest.java:178-179 | a sequence of containers binds exactly the union of what each container binds |
| `ArtifactReplacer.RewriteEnvSources` | clouddriver-kubernetes/src/test/java/com/netflix/spinnaker/clouddriver/kubernetes/artifact/ArtifactReplacerTest.java:273-297 | the loop over `envFrom` entries produces exactly the specified rewritten entries and bound set |
| `ArtifactReplacer.RewriteContainers` | clouddriver-kubernetes/src/test/java/com/netflix/spinnaker/clouddriver/kubernetes/artifact/ArtifactReplacerTest.java:166-198 | the loop over containers produces exactly the specified rewritten containers and bound set |
| `ArtifactReplacer.ApplyReplacer` | clouddriver-kubernetes/src/test/java/com/netflix/spinnaker/clouddriver/kubernetes/artifact/ArtifactReplacerTest.java:166-198 | one replacer's pass over containers and then init containers equals the specified pass |
| `ArtifactReplacer.ReplaceAll` | clouddriver-kubernetes/src/test/java/com/netflix/spinnaker/clouddriver/kubernetes/artifact/ArtifactReplacerTest.java:152-393 | `replaceAll` equals its specification; every bound artifact is from the pool and in scope; if nothing binds, the manifest comes back equal to the input |
| `ArtifactReplacer.RewrittenContainerBinds` | clouddriver-kubernetes/src/test/java/com/netflix/spinnaker/clouddriver/kubernetes/artifact/ArtifactReplacerTest.java:166-198 | a container binds only artifacts that `Select` chose for a reference the container holds: pool artifacts of the replacer's type, eligible for that reference |
| `ArtifactReplacer.RewrittenContainerUnbound` | clouddriver-kubernetes/src/test/java/com/netflix/spinnaker/clouddriver/kubernetes/artifact/ArtifactReplacerTest.java:324-345 | when nothing in the pool is eligible for a container's references, the container is unchanged and binds nothing |
| `ArtifactReplacer.AppliedBindsCandidates` | clouddriver-kubernetes/src/test/java/com/netflix/spinnaker/clouddriver/kubernetes/artifact/ArtifactReplacerTest.java:166-198 | one pass binds only artifacts that `Select` chose for a candidate the replacer finds in the manifest: pool artifacts of the replacer's type, eligible for that candidate; a second eligible artifact that was not chosen is never bound |
| `ArtifactReplacer.RewrittenContainerBoundIn` | clouddriver-kubernetes/src/test/java/com/netflix/spinnaker/clouddriver/kubernetes/artifact/ArtifactReplacerTest.java:175-180 | at a single container, the artifact selected for its image (or for each of its `envFrom` entries) replaces that reference and is bound, a reference nothing is selected for stays, and nothing else in the container changes |
| `ArtifactReplacer.AppliedBindsSelected` | clouddriver-kubernetes/src/test/java/com/netflix/spinnaker/clouddriver/kubernetes/artifact/ArtifactReplacerTest.java:175-180 | one pass over any workload keeps its kind, name and the number of containers and init containers; at every one of them each selected artifact replaces its reference and is in the bound set, and each reference nothing is selected for is left as it was |
| `ArtifactReplacer.AppliedBindsSelectedImage` | clouddriver-kubernetes/src/test/java/com/netflix/spinnaker/clouddriver/kubernetes/artifact/ArtifactReplacerTest.java:175-180 | the artifact selected for the image of any container or init container is bound by the `dockerImage` pass |
| `ArtifactReplacer.AppliedBindsSelectedConfigMap` | clouddriver-kubernetes/src/test/java/com/netflix/spinnaker/clouddriver/kubernetes/artifact/ArtifactReplacerTest.java:288-296 | the artifact selected for a config map named in any `envFrom` entry is bound by the `configMapEnv` pass |
| `ArtifactReplacer.ConfigMapBindsExactlyInScope` | clouddriver-kubernetes/src/test/java/com/netflix/spinnaker/clouddriver/kubernetes/artifact/ArtifactReplacerTest.java:273-393 | for any workload naming its config map and a one-artifact pool, `replaceAll` binds the artifact exactly when it is in scope, and otherwise returns the manifest unchanged |
| `ArtifactReplacer.ImageBindsWhateverItsScope` | clouddriver-kubernetes/src/test/java/com/netflix/spinnaker/clouddriver/kubernetes/artifact/ArtifactReplacerTest.java:221-271 | for any workload and a one-artifact image pool, `replaceAll` binds the artifact exactly when some image has its name and the mode allows rebinding that image, whatever the artifact's location and account, and otherwise returns the manifest unchanged |
| `ArtifactReplacer.AppliedUnbound` | clouddriver-kubernetes/src/test/java/com/netflix/spinnaker/clouddriver/kubernetes/artifact/ArtifactReplacerTest.java:200-219 | when nothing is eligible for what a replacer finds, its pass returns the manifest unchanged with nothing bound |
| `ArtifactReplacer.AppliedUnboundIsUnchanged` | clouddriver-kubernetes/src/test/java/com/netflix/spinnaker/clouddriver/kubernetes/artifact/ArtifactReplacerTest.java:217-218 | a pass that binds nothing leaves the manifest equal to its input |
| `ArtifactReplacer.ContainersUnboundAreUnchanged` | clouddriver-kubernetes/src/test/java/com/netflix/spinnaker/clouddriver/kubernetes/artifact/ArtifactReplacerTest.java:217-218 | containers that bind nothing are left equal to the input |
| `ArtifactReplacer.ReplacedBindsFromPool` | clouddriver-kubernetes/src/test/java/com/netflix/spinnaker/clouddriver/kubernetes/artifact/ArtifactReplacerTest.java:221-393 | every artifact `replaceAll` binds is a member of the pool and satisfies the scoping rule |
| `ArtifactReplacer.ReplacedUnboundIsUnchanged` | clouddriver-kubernetes/src/test/java/com/netflix/spinnaker/clouddriver/kubernetes/artifact/ArtifactReplacerTest.java:217-218 | when `replaceAll` binds nothing, the manifest it returns equals the input |
| `ArtifactReplacer.ReplacedNoneEligible` | clouddriver-kubernetes/src/test/java/com/netflix/spinnaker/clouddriver/kubernetes/artifact/ArtifactReplacerTest.java:200-219 | when no pool artifact is eligible for anything `findAll` finds, `replaceAll` returns the input manifest and an empty bound set |
| `ArtifactReplacer.ReplacedEmptyPool` | clouddriver-kubernetes/src/test/java/com/netflix/spinnaker/clouddriver/kubernetes/artifact/ArtifactReplacerTest.java:152-164 | with an empty pool, `replaceAll` returns the input manifest and an empty bound set, for any replacers and any manifest |
| `ArtifactReplacer.ReplacedNoNameMatch` | clouddriver-kubernetes/src/test/java/com/netflix/spinnaker/clouddriver/kubernetes/artifact/ArtifactReplacerTest.java:152-164 | when no pool artifact shares a name with anything found, `replaceAll` returns the input manifest and an empty bound set |
| `ArtifactReplacer.FindAllImages` | clouddriver-kubernetes/src/test/java/com/netflix/spinnaker/clouddriver/kubernetes/artifact/ArtifactReplacerTest.java:91-120 | under `dockerImage`, an artifact is found exactly when it is the candidate of an image of some container or init container |
| `ArtifactReplacer.FindAllConfigMaps` | clouddriver-kubernetes/src/test/java/com/netflix/spinnaker/clouddriver/kubernetes/artifact/ArtifactReplacerTest.java:273-297 | under `configMapEnv`, an artifact is found exactly when it is the candidate of a config map named in some container's `envFrom` |
| `ArtifactReplacer.FindAllScaleTarget` | clouddriver-kubernetes/src/test/java/com/netflix/spinnaker/clouddriver/kubernetes/artifact/ArtifactReplacerTest.java:68-89 | under `hpaDeployment`, an autoscaler yields its target as a single `kubernetes/deployment` artifact when the kind is `Deployment`, and the empty set for every other kind |
| `ArtifactReplacer.HpaReplacesNothing` | clouddriver-kubernetes/src/test/java/com/netflix/spinnaker/clouddriver/kubernetes/artifact/ArtifactReplacerTest.java:68-89 | under `replaceAll`, `hpaDeployment` returns every manifest unchanged and binds nothing, whatever the pool |
| `Scenarios.FindAllSingleImage` | clouddriver-kubernetes/src/test/java/com/netflix/spinnaker/clouddriver/kubernetes/artifact/ArtifactReplacerTest.java:91-120 | a deployment with one image, in a container or an init container, yields exactly one artifact: type `docker/image`, the image as reference, and `ImageName` of it as name |
| `Scenarios.ExtractsDeploymentNameFromHpa` | clouddriver-kubernetes/src/test/java/com/netflix/spinnaker/clouddriver/kubernetes/artifact/ArtifactReplacerTest.java:68-79 | the test's autoscaler yields exactly the `kubernetes/deployment` artifact named `my-deployment` |
| `Scenarios.SkipsHpaWithUnknownKind` | clouddriver-kubernetes/src/test/java/com/netflix/spinnaker/clouddriver/kubernetes/artifact/ArtifactReplacerTest.java:81-89 | an autoscaler targeting kind `Unknown` yields the empty set |
| `Scenarios.SingleImageReplace` | clouddriver-kubernetes/src/test/java/com/netflix/spinnaker/clouddriver/kubernetes/artifact/ArtifactReplacerTest.java:166-271 | for a one-container deployment and a one-image pool, the image becomes the artifact's reference and the artifact is bound exactly when the names agree and the mode allows it; otherwise nothing changes. Location and account do not matter |
| `Scenarios.EmptyReplace` | clouddriver-kubernetes/src/test/java/com/netflix/spinnaker/clouddriver/kubernetes/artifact/ArtifactReplacerTest.java:152-164 | the test deployment with `nginx:112` and an empty pool comes back unchanged with nothing bound |
| `Scenarios.ReplacesDockerImage` | clouddriver-kubernetes/src/test/java/com/netflix/spinnaker/clouddriver/kubernetes/artifact/ArtifactReplacerTest.java:166-181 | `nginx` becomes `nginx:1.19.1` and the bound set is exactly the artifact |
| `Scenarios.TaggedNginx` | clouddriver-kubernetes/src/test/java/com/netflix/spinnaker/clouddriver/kubernetes/artifact/ArtifactReplacerTest.java:187 | `nginx:1.18.0` has the name `nginx` and carries a tag |
| `Scenarios.ReplacesDockerImageWithTag` | clouddriver-kubernetes/src/test/java/com/netflix/spinnaker/clouddriver/kubernetes/artifact/ArtifactReplacerTest.java:183-198 | under the default mode, `nginx:1.18.0` becomes `nginx:1.19.1` and the bound set is exactly the artifact |
| `Scenarios.DoesNotReplaceImageWithTag` | clouddriver-kubernetes/src/test/java/com/netflix/spinnaker/clouddriver/kubernetes/artifact/ArtifactReplacerTest.java:200-219 | under `match-name-only`, `nginx:1.18.0` is left as it is and nothing is bound |
| `Scenarios.NonKubernetesArtifactIgnoresDifferentAccount` | clouddriver-kubernetes/src/test/java/com/netflix/spinnaker/clouddriver/kubernetes/artifact/ArtifactReplacerTest.java:221-245 | an image artifact whose account is `another-account` still binds, and the image is rewritten |
| `Scenarios.NonKubernetesArtifactIgnoresDifferentNamespace` | clouddriver-kubernetes/src/test/java/com/netflix/spinnaker/clouddriver/kubernetes/artifact/ArtifactReplacerTest.java:247-271 | an image artifact whose location is `another-namespace` still binds, and the image is rewritten |
| `Scenarios.SingleEnvFromRewrite` | clouddriver-kubernetes/src/test/java/com/netflix/spinnaker/clouddriver/kubernetes/artifact/ArtifactReplacerTest.java:482-502 | the container pass over the test replica set's one container rewrites its config-map name exactly when the artifact binds |
| `Scenarios.SingleConfigMapReplace` | clouddriver-kubernetes/src/test/java/com/netflix/spinnaker/clouddriver/kubernetes/artifact/ArtifactReplacerTest.java:273-393 | for a replica set naming one config map and a one-artifact pool, the name becomes the artifact's reference and the artifact is bound exactly when the names agree, the location (empty if unset) is the ambient namespace, and the account is unset, empty or ambient; otherwise nothing changes |
| `Scenarios.ReplacesConfigMap` | clouddriver-kubernetes/src/test/java/com/netflix/spinnaker/clouddriver/kubernetes/artifact/ArtifactReplacerTest.java:273-297 | same namespace and account: the name becomes `my-config-map-v003` and the artifact is bound |
| `Scenarios.ReplacesConfigMapArtifactMissingAccount` | clouddriver-kubernetes/src/test/java/com/netflix/spinnaker/clouddriver/kubernetes/artifact/ArtifactReplacerTest.java:299-322 | same namespace and no account: the name becomes `my-config-map-v003` and the artifact is bound |
| `Scenarios.DoesNotReplaceConfigmapWrongAccount` | clouddriver-kubernetes/src/test/java/com/netflix/spinnaker/clouddriver/kubernetes/artifact/ArtifactReplacerTest.java:324-345 | account `other-account`: the name stays `my-config-map` and nothing is bound |
| `Scenarios.DoesNotReplaceConfigmapWrongNamespace` | clouddriver-kubernetes/src/test/java/com/netflix/spinnaker/clouddriver/kubernetes/artifact/ArtifactReplacerTest.java:347-368 | location `other-namespace`: the name stays `my-config-map` and nothing is bound |
| `Scenarios.ReplacesConfigMapNoNamespace` | clouddriver-kubernetes/src/test/java/com/netflix/spinnaker/clouddriver/kubernetes/artifact/ArtifactReplacerTest.java:370-393 | no location and an empty ambient namespace: the name becomes `my-config-map-v003` and the artifact is bound |

## Left out

- The manifest is not a generic JSON tree. The model holds only the fields the replacer
  reads and writes: containers, init containers, images, `envFrom` config-map names and
  the scale target. Serialisation through Gson and the Kubernetes JSON helper is left out,
  and so is the reading back of the first image or first `envFrom` name. The model
  compares whole manifest values instead.
- Other fields of the test manifests are left out: labels, selectors, replica counts,
  ports and the autoscaler's API version. A rewrite never touches them.
- `hpaDeployment` does not rewrite the autoscaler's target. Only discovery is in the tests.
- The binding mode is a closed two-value datatype. The model does not parse arbitrary
  mode strings.
- Tie-breaking among several pool artifacts eligible for one reference is fixed as first
  in pool order. Nothing further is claimed.
- The in-place mutation of a shared document is not modelled. The model returns a new
  manifest value, and the input is left unchanged because all values are immutable.
- `ArtifactReplacer.ReplacedBindsFromPool`: does not also prove that each bound artifact
  matches a candidate of the original manifest. A later replacer sees the manifest that
  an earlier one rewrote, so the claim is stated per pass in
  `ArtifactReplacer.AppliedBindsCandidates`.
