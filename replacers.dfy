/**
 * The three replacer strategies: where each finds artifact references in a manifest, the
 * candidate artifact each reference stands for, and the binding policy that picks the
 * caller-supplied artifact a reference is rewritten to.
 */
module Replacers {
  import opened Wrappers
  import opened ImageReference
  import opened Artifacts
  import opened Manifests

  /** `dockerImage`, `configMapEnv` and `hpaDeployment`. */
  datatype Replacer = DockerImage | ConfigMapEnv | HpaDeployment

  /** The docker-image binding setting: `match-name-and-tag` (the default) or `match-name-only`. */
  datatype BindingMode = MatchNameAndTag | MatchNameOnly

  /** The artifact type a replacer finds and binds. */
  function ReplacerType(r: Replacer): string
  {
    match r
    case DockerImage => DockerImageType
    case ConfigMapEnv => ConfigMapType
    case HpaDeployment => DeploymentType
  }

  /** The artifact a found reference stands for: the reference, its name, and the type. */
  function CandidateOf(artifactType: string, name: string, reference: string): Artifact
  {
    Artifact(artifactType, name, reference, None, None, map[])
  }

  /** The candidate for a container image: named after the image with its tag or digest removed. */
  function ImageCandidate(image: string): (c: Artifact)
    ensures c.artifactType == DockerImageType && c.reference == image
    ensures c.name == ImageName(image) && c.name <= image
  {
    ImageNameIsPrefix(image);
    CandidateOf(DockerImageType, ImageName(image), image)
  }

  /** The candidate for a config map named in `envFrom`: the name is the reference. */
  function ConfigMapCandidate(configMap: string): (c: Artifact)
    ensures c.artifactType == ConfigMapType && c.name == configMap && c.reference == configMap
  {
    CandidateOf(ConfigMapType, configMap, configMap)
  }

  /** The scale-target kinds with an artifact type; only `Deployment` for `hpaDeployment`. */
  function TargetKindType(kind: string): Option<string>
  {
    if kind == "Deployment" then Some(DeploymentType) else None
  }

  /** The references one container holds for a replacer, as candidates. */
  function ContainerCandidates(r: Replacer, c: Container): set<Artifact>
  {
    match r
    case DockerImage => if c.image.Some? then {ImageCandidate(c.image.value)} else {}
    case ConfigMapEnv =>
      set e | e in c.envFrom && e.configMapRef.Some? :: ConfigMapCandidate(e.configMapRef.value)
    case HpaDeployment => {}
  }

  /**
   * What a replacer finds in a manifest: the container strategies look at every container
   * and init container of a workload; the autoscaler strategy looks at the scale target,
   * and finds nothing when its kind has no artifact type. Absent fields yield nothing.
   */
  function Candidates(r: Replacer, m: Manifest): set<Artifact>
  {
    match m
    case Workload(_, _, spec) =>
      set c, a | c in AllContainers(spec) && a in ContainerCandidates(r, c) :: a
    case HorizontalPodAutoscaler(_, target) =>
      if r == HpaDeployment && TargetKindType(target.kind).Some? then
        {CandidateOf(TargetKindType(target.kind).value, target.name, target.name)}
      else {}
  }

  /**
   * The binding policy for one found reference `cand` and one supplied artifact `a`: same
   * type, same name, in scope, and, for images under `match-name-only`, an image that
   * carries no tag of its own.
   */
  predicate Eligible(mode: BindingMode, cand: Artifact, a: Artifact, namespace: string, account: string)
  {
    a.artifactType == cand.artifactType &&
    a.name == cand.name &&
    InScope(a, namespace, account) &&
    (cand.artifactType == DockerImageType && mode == MatchNameOnly ==> !HasTag(cand.reference))
  }

  /**
   * The artifact a found reference binds to: the first eligible one in pool order, or
   * none when no artifact of the pool is eligible.
   */
  function Select(mode: BindingMode, cand: Artifact, pool: seq<Artifact>, namespace: string, account: string): (r: Option<Artifact>)
    ensures r.None? <==> forall a :: a in pool ==> !Eligible(mode, cand, a, namespace, account)
    ensures r.Some? ==> r.value in pool && Eligible(mode, cand, r.value, namespace, account)
    ensures r.Some? ==> exists k :: (0 <= k < |pool| && pool[k] == r.value &&
      forall j :: 0 <= j < k ==> !Eligible(mode, cand, pool[j], namespace, account))
  {
    if pool == [] then None
    else if Eligible(mode, cand, pool[0], namespace, account) then Some(pool[0])
    else
      var r := Select(mode, cand, pool[1..], namespace, account);
      assert r.Some? ==> exists k :: (1 <= k < |pool| && pool[k] == r.value &&
        forall j :: 0 <= j < k ==> !Eligible(mode, cand, pool[j], namespace, account)) by {
        if r.Some? {
          var k :| 0 <= k < |pool[1..]| && pool[1..][k] == r.value &&
            forall j :: 0 <= j < k ==> !Eligible(mode, cand, pool[1..][j], namespace, account);
          assert forall j :: 1 <= j < k + 1 ==> pool[j] == pool[1..][j - 1];
        }
      }
      r
  }
}
