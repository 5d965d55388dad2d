/**
 * Artifacts, the caller-supplied units a manifest can be bound to, and the account and
 * namespace scoping that applies to the cluster-internal ones, whose type starts with `kubernetes/`.
 */
module Artifacts {
  import opened Wrappers

  /** The artifact record: identity for matching is its type and name. */
  datatype Artifact = Artifact(
    artifactType: string,
    name: string,
    reference: string,
    version: Option<string>,
    location: Option<string>,
    metadata: map<string, string>)

  const DockerImageType := "docker/image"
  const ConfigMapType := "kubernetes/configMap"
  const DeploymentType := "kubernetes/deployment"

  /** Types that live inside a cluster and so are scoped by account and namespace. */
  predicate IsKubernetesType(t: string)
  {
    "kubernetes/" <= t
  }

  /** The artifact's namespace, an unset location read as the empty one. */
  function LocationOf(a: Artifact): string
  {
    a.location.GetOr("")
  }

  /** The artifact's `account` metadata, an absent entry read as empty. */
  function AccountOf(a: Artifact): string
  {
    if "account" in a.metadata then a.metadata["account"] else ""
  }

  /**
   * The scoping rule: an artifact whose type starts with `kubernetes/` must sit in the
   * ambient namespace and, unless it names no account, in the ambient account; an
   * artifact of any other type is always in scope.
   */
  predicate InScope(a: Artifact, namespace: string, account: string)
  {
    !IsKubernetesType(a.artifactType) ||
    (LocationOf(a) == namespace && (AccountOf(a) == "" || AccountOf(a) == account))
  }

  /** The three artifact types the replacers produce, and which of them are scoped. */
  lemma ArtifactTypeKinds()
    ensures !IsKubernetesType(DockerImageType)
    ensures IsKubernetesType(ConfigMapType)
    ensures IsKubernetesType(DeploymentType)
  {
    assert DockerImageType[0] != "kubernetes/"[0];
    assert ConfigMapType[..11] == "kubernetes/";
    assert DeploymentType[..11] == "kubernetes/";
  }
}
