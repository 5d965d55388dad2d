/**
 * The artifact replacer's test scenarios. Each general lemma settles one manifest shape
 * for every input; the concrete lemmas instantiate it with the values the tests use.
 */
module Scenarios {
  import opened Wrappers
  import opened ImageReference
  import opened Artifacts
  import opened Manifests
  import opened Replacers
  import opened ArtifactReplacer

  const Namespace := "ns"
  const Account := "my-account"

  // ---------------------------------------------------------------------------------
  // findAll

  /** A deployment with one image, in a container or an init container, yields exactly its candidate. */
  lemma FindAllSingleImage(image: string, asInit: bool)
    ensures var m := if asInit then DeploymentWithInitContainer(image) else DeploymentWithContainer(image);
      FindAll([DockerImage], m) == {ImageCandidate(image)}
    ensures ImageCandidate(image).artifactType == "docker/image"
    ensures ImageCandidate(image).name == ImageName(image) && ImageCandidate(image).reference == image
  {
    var m := if asInit then DeploymentWithInitContainer(image) else DeploymentWithContainer(image);
    FindAllImages(Deployment, "my-app-deployment", m.template);
    assert AllContainers(m.template) == [ContainerWithImage(image)];
  }

  /** The autoscaler of the tests, targeting a `Deployment`, yields that deployment only. */
  lemma ExtractsDeploymentNameFromHpa()
    ensures FindAll([HpaDeployment], HpaOf("Deployment", "my-deployment")) ==
      {Artifact("kubernetes/deployment", "my-deployment", "my-deployment", None, None, map[])}
  {
    FindAllScaleTarget("my-hpa", ScaleTargetRef("Deployment", "my-deployment"));
  }

  /** An autoscaler whose target kind has no artifact type yields nothing, and is no error. */
  lemma SkipsHpaWithUnknownKind()
    ensures FindAll([HpaDeployment], HpaOf("Unknown", "my-deployment")) == {}
  {
    FindAllScaleTarget("my-hpa", ScaleTargetRef("Unknown", "my-deployment"));
  }

  // ---------------------------------------------------------------------------------
  // replaceAll on images

  /**
   * A one-container deployment and a one-artifact image pool: the image is rewritten to
   * the artifact's reference, and the artifact bound, exactly when the names agree and
   * the mode allows it (always under `match-name-and-tag`, only for an untagged image
   * under `match-name-only`); otherwise nothing changes. The artifact's location and
   * account play no part.
   */
  lemma SingleImageReplace(mode: BindingMode, image: string, a: Artifact, namespace: string, account: string)
    requires a.artifactType == DockerImageType
    ensures Replaced([DockerImage], mode, DeploymentWithContainer(image), [a], namespace, account) ==
      if a.name == ImageName(image) && (mode == MatchNameAndTag || !HasTag(image))
      then ReplaceResult(DeploymentWithContainer(a.reference), {a})
      else ReplaceResult(DeploymentWithContainer(image), {})
  {
    ArtifactTypeKinds();
    var c := ContainerWithImage(image);
    var pass := RewrittenContainers(DockerImage, mode, [c], [a], namespace, account);
    ContainersBound(DockerImage, mode, [c], [a], namespace, account);
    assert [DockerImage][..0] == [];
    if a.name == ImageName(image) && (mode == MatchNameAndTag || !HasTag(image)) {
      assert Eligible(mode, ImageCandidate(image), a, namespace, account);
      assert pass.value == [ContainerWithImage(a.reference)];
      assert pass.bound == {a};
    } else {
      assert !Eligible(mode, ImageCandidate(image), a, namespace, account);
      assert pass.value == [c];
      assert pass.bound == {};
    }
  }

  /** The artifact the image tests supply: `nginx`, pinned to `nginx:1.19.1`. */
  function NginxArtifact(location: Option<string>, metadata: map<string, string>): Artifact
  {
    Artifact("docker/image", "nginx", "nginx:1.19.1", None, location, metadata)
  }

  /** An empty pool leaves the deployment as it was and binds nothing. */
  lemma EmptyReplace()
    ensures Replaced([DockerImage], MatchNameAndTag, DeploymentWithContainer("nginx:112"), [], Namespace, Account) ==
      ReplaceResult(DeploymentWithContainer("nginx:112"), {})
  {
    ReplacedEmptyPool([DockerImage], MatchNameAndTag, DeploymentWithContainer("nginx:112"), Namespace, Account);
  }

  /** A bare image is rewritten to the artifact's reference. */
  lemma ReplacesDockerImage()
    ensures var a := NginxArtifact(None, map[]);
      Replaced([DockerImage], MatchNameAndTag, DeploymentWithContainer("nginx"), [a], Namespace, Account) ==
      ReplaceResult(DeploymentWithContainer("nginx:1.19.1"), {a})
  {
    ImageNameOfUntagged("nginx");
    SingleImageReplace(MatchNameAndTag, "nginx", NginxArtifact(None, map[]), Namespace, Account);
  }

  /** `nginx:1.18.0` has the name `nginx` and carries a tag. */
  lemma TaggedNginx()
    ensures ImageName("nginx:1.18.0") == "nginx" && HasTag("nginx:1.18.0")
  {
    var n, t := "nginx", "1.18.0";
    assert n + ":" + t == "nginx:1.18.0";
    ImageNameOfTagged(n, t);
  }

  /** Under the default mode a tagged image is rewritten all the same. */
  lemma ReplacesDockerImageWithTag()
    ensures var a := NginxArtifact(None, map[]);
      Replaced([DockerImage], MatchNameAndTag, DeploymentWithContainer("nginx:1.18.0"), [a], Namespace, Account) ==
      ReplaceResult(DeploymentWithContainer("nginx:1.19.1"), {a})
  {
    TaggedNginx();
    SingleImageReplace(MatchNameAndTag, "nginx:1.18.0", NginxArtifact(None, map[]), Namespace, Account);
  }

  /** Under `match-name-only` a tagged image is a pin: nothing changes and nothing binds. */
  lemma DoesNotReplaceImageWithTag()
    ensures var a := NginxArtifact(None, map[]);
      Replaced([DockerImage], MatchNameOnly, DeploymentWithContainer("nginx:1.18.0"), [a], Namespace, Account) ==
      ReplaceResult(DeploymentWithContainer("nginx:1.18.0"), {})
  {
    TaggedNginx();
    SingleImageReplace(MatchNameOnly, "nginx:1.18.0", NginxArtifact(None, map[]), Namespace, Account);
  }

  /** An image artifact from another account still binds: only `kubernetes/` types are scoped. */
  lemma NonKubernetesArtifactIgnoresDifferentAccount()
    ensures var a := NginxArtifact(None, map["account" := "another-account"]);
      Replaced([DockerImage], MatchNameAndTag, DeploymentWithContainer("nginx"), [a], Namespace, Account) ==
      ReplaceResult(DeploymentWithContainer("nginx:1.19.1"), {a})
  {
    ImageNameOfUntagged("nginx");
    SingleImageReplace(MatchNameAndTag, "nginx", NginxArtifact(None, map["account" := "another-account"]), Namespace, Account);
  }

  /** An image artifact from another namespace still binds. */
  lemma NonKubernetesArtifactIgnoresDifferentNamespace()
    ensures var a := NginxArtifact(Some("another-namespace"), map[]);
      Replaced([DockerImage], MatchNameAndTag, DeploymentWithContainer("nginx"), [a], Namespace, Account) ==
      ReplaceResult(DeploymentWithContainer("nginx:1.19.1"), {a})
  {
    ImageNameOfUntagged("nginx");
    SingleImageReplace(MatchNameAndTag, "nginx", NginxArtifact(Some("another-namespace"), map[]), Namespace, Account);
  }

  // ---------------------------------------------------------------------------------
  // replaceAll on config maps

  /** The container pass of `SingleConfigMapReplace`, on the replica set's one container. */
  lemma SingleEnvFromRewrite(mode: BindingMode, configMap: string, a: Artifact, namespace: string, account: string)
    requires a.artifactType == ConfigMapType
    ensures var c := EnvFromContainer(configMap);
      RewrittenContainers(ConfigMapEnv, mode, [c], [a], namespace, account) ==
      if a.name == configMap && LocationOf(a) == namespace && (AccountOf(a) == "" || AccountOf(a) == account)
      then Rewrite([EnvFromContainer(a.reference)], {a})
      else Rewrite([c], {})
  {
    ArtifactTypeKinds();
    var e := EnvFromSource(Some(configMap));
    var c := EnvFromContainer(configMap);
    assert c.envFrom == [e];
    var envs := RewrittenEnvSources(mode, [e], [a], namespace, account);
    EnvSourcesBound(mode, [e], [a], namespace, account);
    var pass := RewrittenContainers(ConfigMapEnv, mode, [c], [a], namespace, account);
    ContainersBound(ConfigMapEnv, mode, [c], [a], namespace, account);
    if a.name == configMap && LocationOf(a) == namespace && (AccountOf(a) == "" || AccountOf(a) == account) {
      assert Eligible(mode, ConfigMapCandidate(configMap), a, namespace, account);
      assert envs.value == [EnvFromSource(Some(a.reference))] && envs.bound == {a};
      assert RewrittenContainer(ConfigMapEnv, mode, c, [a], namespace, account) == Rewrite(EnvFromContainer(a.reference), {a});
      assert pass.value == [EnvFromContainer(a.reference)];
      assert pass.bound == {a};
    } else {
      assert !Eligible(mode, ConfigMapCandidate(configMap), a, namespace, account);
      assert envs.value == [e] && envs.bound == {};
      assert RewrittenContainer(ConfigMapEnv, mode, c, [a], namespace, account) == Rewrite(c, {});
      assert pass.value == [c];
      assert pass.bound == {};
    }
  }

  /**
   * A replica set naming one config map and a one-artifact config-map pool: the name is
   * rewritten to the artifact's reference, and the artifact bound, exactly when the names
   * agree, the artifact's location (empty when unset) is the ambient namespace, and its
   * account is unset, empty or the ambient one; otherwise nothing changes.
   */
  lemma SingleConfigMapReplace(mode: BindingMode, configMap: string, a: Artifact, namespace: string, account: string)
    requires a.artifactType == ConfigMapType
    ensures Replaced([ConfigMapEnv], mode, ReplicaSetWithEnvFrom(configMap), [a], namespace, account) ==
      if a.name == configMap && LocationOf(a) == namespace && (AccountOf(a) == "" || AccountOf(a) == account)
      then ReplaceResult(ReplicaSetWithEnvFrom(a.reference), {a})
      else ReplaceResult(ReplicaSetWithEnvFrom(configMap), {})
  {
    SingleEnvFromRewrite(mode, configMap, a, namespace, account);
    assert RewrittenContainers(ConfigMapEnv, mode, [], [a], namespace, account) == Rewrite([], {});
    assert [ConfigMapEnv][..0] == [];
  }

  /** The artifact the config-map tests supply: `my-config-map`, version `v003`. */
  function ConfigMapArtifact(location: Option<string>, metadata: map<string, string>): Artifact
  {
    Artifact("kubernetes/configMap", "my-config-map", "my-config-map-v003", Some("v003"), location, metadata)
  }

  /** Same namespace, same account: the config map is rewritten. */
  lemma ReplacesConfigMap()
    ensures var a := ConfigMapArtifact(Some(Namespace), map["account" := Account]);
      Replaced([ConfigMapEnv], MatchNameAndTag, ReplicaSetWithEnvFrom("my-config-map"), [a], Namespace, Account) ==
      ReplaceResult(ReplicaSetWithEnvFrom("my-config-map-v003"), {a})
  {
    SingleConfigMapReplace(MatchNameAndTag, "my-config-map", ConfigMapArtifact(Some(Namespace), map["account" := Account]), Namespace, Account);
  }

  /** Same namespace, no account on the artifact: the config map is rewritten. */
  lemma ReplacesConfigMapArtifactMissingAccount()
    ensures var a := ConfigMapArtifact(Some(Namespace), map[]);
      Replaced([ConfigMapEnv], MatchNameAndTag, ReplicaSetWithEnvFrom("my-config-map"), [a], Namespace, Account) ==
      ReplaceResult(ReplicaSetWithEnvFrom("my-config-map-v003"), {a})
  {
    SingleConfigMapReplace(MatchNameAndTag, "my-config-map", ConfigMapArtifact(Some(Namespace), map[]), Namespace, Account);
  }

  /** Another account on the artifact: the original name stays and nothing binds. */
  lemma DoesNotReplaceConfigmapWrongAccount()
    ensures var a := ConfigMapArtifact(Some(Namespace), map["account" := "other-account"]);
      Replaced([ConfigMapEnv], MatchNameAndTag, ReplicaSetWithEnvFrom("my-config-map"), [a], Namespace, Account) ==
      ReplaceResult(ReplicaSetWithEnvFrom("my-config-map"), {})
  {
    SingleConfigMapReplace(MatchNameAndTag, "my-config-map", ConfigMapArtifact(Some(Namespace), map["account" := "other-account"]), Namespace, Account);
  }

  /** Another namespace on the artifact: the original name stays and nothing binds. */
  lemma DoesNotReplaceConfigmapWrongNamespace()
    ensures var a := ConfigMapArtifact(Some("other-namespace"), map["account" := Account]);
      Replaced([ConfigMapEnv], MatchNameAndTag, ReplicaSetWithEnvFrom("my-config-map"), [a], Namespace, Account) ==
      ReplaceResult(ReplicaSetWithEnvFrom("my-config-map"), {})
  {
    SingleConfigMapReplace(MatchNameAndTag, "my-config-map", ConfigMapArtifact(Some("other-namespace"), map["account" := Account]), Namespace, Account);
  }

  /** No location on the artifact and an empty ambient namespace: the config map is rewritten. */
  lemma ReplacesConfigMapNoNamespace()
    ensures var a := ConfigMapArtifact(None, map["account" := Account]);
      Replaced([ConfigMapEnv], MatchNameAndTag, ReplicaSetWithEnvFrom("my-config-map"), [a], "", Account) ==
      ReplaceResult(ReplicaSetWithEnvFrom("my-config-map-v003"), {a})
  {
    SingleConfigMapReplace(MatchNameAndTag, "my-config-map", ConfigMapArtifact(None, map["account" := Account]), "", Account);
  }
}
