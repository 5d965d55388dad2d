/**
 * The artifact replacer: an ordered list of replacers run over one manifest, either to
 * find every artifact the manifest refers to (`FindAll`) or to rewrite every reference
 * that a caller-supplied artifact binds to (`ReplaceAll`, with `Replaced` specifying it).
 */
module ArtifactReplacer {
  import opened Wrappers
  import opened ImageReference
  import opened Artifacts
  import opened Manifests
  import opened Replacers

  /** The rewritten manifest, and the set of supplied artifacts written into it. */
  datatype ReplaceResult = ReplaceResult(manifest: Manifest, boundArtifacts: set<Artifact>)

  /** A part of a manifest after binding, with the artifacts bound inside it. */
  datatype Rewrite<T> = Rewrite(value: T, bound: set<Artifact>)

  /** Every candidate any of the replacers finds in the manifest, without duplicates. */
  function FindAll(replacers: seq<Replacer>, m: Manifest): set<Artifact>
  {
    set r, a | r in replacers && a in Candidates(r, m) :: a
  }

  /** No supplied artifact is eligible for any of the found references. */
  ghost predicate NoneEligible(mode: BindingMode, found: set<Artifact>, pool: seq<Artifact>, namespace: string, account: string)
  {
    forall cand, a :: cand in found && a in pool ==> !Eligible(mode, cand, a, namespace, account)
  }

  // ---------------------------------------------------------------------------------
  // Specification of the rewrite, one located reference at a time.

  /** One `envFrom` entry after binding, with the artifact bound there, if any. */
  function RewrittenEnvSource(mode: BindingMode, e: EnvFromSource, pool: seq<Artifact>, namespace: string, account: string): Rewrite<EnvFromSource>
  {
    match e.configMapRef
    case None => Rewrite(e, {})
    case Some(configMap) =>
      match Select(mode, ConfigMapCandidate(configMap), pool, namespace, account)
      case None => Rewrite(e, {})
      case Some(a) => Rewrite(EnvFromSource(Some(a.reference)), {a})
  }

  /**
   * Items rewritten one at a time, in order, collecting what each binds: the shape of
   * every rewrite over a sequence of located references.
   */
  function RewriteEach<T>(rewrite: T -> Rewrite<T>, xs: seq<T>): (res: Rewrite<seq<T>>)
    ensures |res.value| == |xs|
    ensures forall k :: 0 <= k < |xs| ==> res.value[k] == rewrite(xs[k]).value
    decreases |xs|
  {
    if xs == [] then Rewrite([], {})
    else
      var init := xs[..|xs| - 1];
      var prefix := RewriteEach(rewrite, init);
      assert forall k :: 0 <= k < |init| ==> init[k] == xs[k];
      Rewrite(prefix.value + [rewrite(xs[|xs| - 1]).value], prefix.bound + rewrite(xs[|xs| - 1]).bound)
  }

  /** What a rewrite over a sequence binds is exactly what its items bind. */
  lemma {:induction false} RewriteEachBound<T>(rewrite: T -> Rewrite<T>, xs: seq<T>)
    ensures forall a :: a in RewriteEach(rewrite, xs).bound <==> exists k :: 0 <= k < |xs| && a in rewrite(xs[k]).bound
    decreases |xs|
  {
    if xs != [] {
      var init := xs[..|xs| - 1];
      RewriteEachBound(rewrite, init);
      assert forall k :: 0 <= k < |init| ==> init[k] == xs[k];
    }
  }

  /** A container's `envFrom` entries rewritten entry by entry. */
  function RewrittenEnvSources(mode: BindingMode, es: seq<EnvFromSource>, pool: seq<Artifact>, namespace: string, account: string): Rewrite<seq<EnvFromSource>>
  {
    RewriteEach(e => RewrittenEnvSource(mode, e, pool, namespace, account), es)
  }

  /** A container's image after binding, with the artifact bound there, if any. */
  function RewrittenImage(mode: BindingMode, c: Container, pool: seq<Artifact>, namespace: string, account: string): Rewrite<Container>
  {
    match c.image
    case None => Rewrite(c, {})
    case Some(image) =>
      match Select(mode, ImageCandidate(image), pool, namespace, account)
      case None => Rewrite(c, {})
      case Some(a) => Rewrite(c.(image := Some(a.reference)), {a})
  }

  /** A container's `envFrom` entries after binding, with the artifacts bound there. */
  function RewrittenEnvFrom(mode: BindingMode, c: Container, pool: seq<Artifact>, namespace: string, account: string): Rewrite<Container>
  {
    var es := RewrittenEnvSources(mode, c.envFrom, pool, namespace, account);
    Rewrite(c.(envFrom := es.value), es.bound)
  }

  /** One container after a replacer's pass, with the artifacts bound in it. */
  function RewrittenContainer(r: Replacer, mode: BindingMode, c: Container, pool: seq<Artifact>, namespace: string, account: string): Rewrite<Container>
  {
    match r
    case DockerImage => RewrittenImage(mode, c, pool, namespace, account)
    case ConfigMapEnv => RewrittenEnvFrom(mode, c, pool, namespace, account)
    case HpaDeployment => Rewrite(c, {})
  }

  /** A sequence of containers rewritten container by container. */
  function RewrittenContainers(r: Replacer, mode: BindingMode, cs: seq<Container>, pool: seq<Artifact>, namespace: string, account: string): Rewrite<seq<Container>>
  {
    RewriteEach(c => RewrittenContainer(r, mode, c, pool, namespace, account), cs)
  }

  /** One replacer's pass over a manifest: containers first, then init containers. */
  function Applied(r: Replacer, mode: BindingMode, m: Manifest, pool: seq<Artifact>, namespace: string, account: string): ReplaceResult
  {
    match m
    case Workload(kind, name, spec) =>
      var cs := RewrittenContainers(r, mode, spec.containers, pool, namespace, account);
      var ics := RewrittenContainers(r, mode, spec.initContainers, pool, namespace, account);
      ReplaceResult(Workload(kind, name, PodSpec(cs.value, ics.value)), cs.bound + ics.bound)
    case HorizontalPodAutoscaler(_, _) => ReplaceResult(m, {})
  }

  /** The replacers' passes in registration order, each on the previous one's output. */
  function Replaced(replacers: seq<Replacer>, mode: BindingMode, m: Manifest, pool: seq<Artifact>, namespace: string, account: string): ReplaceResult
    decreases |replacers|
  {
    if replacers == [] then ReplaceResult(m, {})
    else
      var before := Replaced(replacers[..|replacers| - 1], mode, m, pool, namespace, account);
      var pass := Applied(replacers[|replacers| - 1], mode, before.manifest, pool, namespace, account);
      ReplaceResult(pass.manifest, before.boundArtifacts + pass.boundArtifacts)
  }

  // ---------------------------------------------------------------------------------
  // The imperative replacement, proved against the specification above.

  method RewriteEnvSources(mode: BindingMode, es: seq<EnvFromSource>, pool: seq<Artifact>, namespace: string, account: string)
    returns (out: seq<EnvFromSource>, bound: set<Artifact>)
    ensures Rewrite(out, bound) == RewrittenEnvSources(mode, es, pool, namespace, account)
  {
    out, bound := [], {};
    for i := 0 to |es|
      invariant Rewrite(out, bound) == RewrittenEnvSources(mode, es[..i], pool, namespace, account)
    {
      var e, b := es[i], {};
      if es[i].configMapRef.Some? {
        var hit := Select(mode, ConfigMapCandidate(es[i].configMapRef.value), pool, namespace, account);
        if hit.Some? {
          e, b := EnvFromSource(Some(hit.value.reference)), {hit.value};
        }
      }
      assert Rewrite(e, b) == RewrittenEnvSource(mode, es[i], pool, namespace, account);
      assert es[..i + 1][..i] == es[..i];
      out, bound := out + [e], bound + b;
    }
    assert es[..|es|] == es;
  }

  method RewriteContainers(r: Replacer, mode: BindingMode, cs: seq<Container>, pool: seq<Artifact>, namespace: string, account: string)
    returns (out: seq<Container>, bound: set<Artifact>)
    ensures Rewrite(out, bound) == RewrittenContainers(r, mode, cs, pool, namespace, account)
  {
    out, bound := [], {};
    for i := 0 to |cs|
      invariant Rewrite(out, bound) == RewrittenContainers(r, mode, cs[..i], pool, namespace, account)
    {
      var c, b := cs[i], {};
      match r {
        case DockerImage =>
          if c.image.Some? {
            var hit := Select(mode, ImageCandidate(c.image.value), pool, namespace, account);
            if hit.Some? {
              c, b := c.(image := Some(hit.value.reference)), {hit.value};
            }
          }
        case ConfigMapEnv =>
          var es, eb := RewriteEnvSources(mode, c.envFrom, pool, namespace, account);
          c, b := c.(envFrom := es), eb;
        case HpaDeployment =>
      }
      assert Rewrite(c, b) == RewrittenContainer(r, mode, cs[i], pool, namespace, account);
      assert cs[..i + 1][..i] == cs[..i];
      out, bound := out + [c], bound + b;
    }
    assert cs[..|cs|] == cs;
  }

  method ApplyReplacer(r: Replacer, mode: BindingMode, m: Manifest, pool: seq<Artifact>, namespace: string, account: string)
    returns (result: ReplaceResult)
    ensures result == Applied(r, mode, m, pool, namespace, account)
  {
    match m {
      case Workload(kind, name, spec) =>
        var cs, bound := RewriteContainers(r, mode, spec.containers, pool, namespace, account);
        var ics, initBound := RewriteContainers(r, mode, spec.initContainers, pool, namespace, account);
        result := ReplaceResult(Workload(kind, name, PodSpec(cs, ics)), bound + initBound);
      case HorizontalPodAutoscaler(_, _) =>
        result := ReplaceResult(m, {});
    }
  }

  /**
   * `replaceAll`: runs each replacer over a working copy of the manifest and accumulates
   * the bound artifacts. Every bound artifact comes from the pool and is in scope, and
   * when nothing binds the manifest comes back equal to the input.
   */
  method ReplaceAll(replacers: seq<Replacer>, mode: BindingMode, m: Manifest, pool: seq<Artifact>, namespace: string, account: string)
    returns (result: ReplaceResult)
    ensures result == Replaced(replacers, mode, m, pool, namespace, account)
    ensures forall a :: a in result.boundArtifacts ==> a in pool && InScope(a, namespace, account)
    ensures result.boundArtifacts == {} ==> result.manifest == m
  {
    var working, bound := m, {};
    for i := 0 to |replacers|
      invariant ReplaceResult(working, bound) == Replaced(replacers[..i], mode, m, pool, namespace, account)
    {
      var pass := ApplyReplacer(replacers[i], mode, working, pool, namespace, account);
      assert replacers[..i + 1][..i] == replacers[..i];
      working, bound := pass.manifest, bound + pass.boundArtifacts;
    }
    assert replacers[..|replacers|] == replacers;
    result := ReplaceResult(working, bound);
    ReplacedBindsFromPool(replacers, mode, m, pool, namespace, account);
    ReplacedUnboundIsUnchanged(replacers, mode, m, pool, namespace, account);
  }

  // ---------------------------------------------------------------------------------
  // Properties of the specification.

  /** What a sequence of `envFrom` entries binds: exactly what its entries bind. */
  lemma EnvSourcesBound(mode: BindingMode, es: seq<EnvFromSource>, pool: seq<Artifact>, namespace: string, account: string)
    ensures forall a :: a in RewrittenEnvSources(mode, es, pool, namespace, account).bound <==>
      exists k :: 0 <= k < |es| && a in RewrittenEnvSource(mode, es[k], pool, namespace, account).bound
  {
    RewriteEachBound(e => RewrittenEnvSource(mode, e, pool, namespace, account), es);
  }

  /** What a sequence of containers binds: exactly what its containers bind. */
  lemma ContainersBound(r: Replacer, mode: BindingMode, cs: seq<Container>, pool: seq<Artifact>, namespace: string, account: string)
    ensures forall a :: a in RewrittenContainers(r, mode, cs, pool, namespace, account).bound <==>
      exists k :: 0 <= k < |cs| && a in RewrittenContainer(r, mode, cs[k], pool, namespace, account).bound
  {
    RewriteEachBound(c => RewrittenContainer(r, mode, c, pool, namespace, account), cs);
  }

  /**
   * A container's pass binds only artifacts that `Select` chose for a reference it holds:
   * pool artifacts of the replacer's type, eligible for that reference.
   */
  lemma RewrittenContainerBinds(r: Replacer, mode: BindingMode, c: Container, pool: seq<Artifact>, namespace: string, account: string)
    ensures var res := RewrittenContainer(r, mode, c, pool, namespace, account);
      forall a :: a in res.bound ==> (a in pool && a.artifactType == ReplacerType(r) &&
        exists cand :: (cand in ContainerCandidates(r, c) && Select(mode, cand, pool, namespace, account) == Some(a) &&
          Eligible(mode, cand, a, namespace, account)))
  {
    var res := RewrittenContainer(r, mode, c, pool, namespace, account);
    if r == ConfigMapEnv {
      EnvSourcesBound(mode, c.envFrom, pool, namespace, account);
      forall a | a in res.bound
        ensures a in pool && a.artifactType == ReplacerType(r) &&
          exists cand :: (cand in ContainerCandidates(r, c) && Select(mode, cand, pool, namespace, account) == Some(a) &&
            Eligible(mode, cand, a, namespace, account))
      {
        var k :| 0 <= k < |c.envFrom| && a in RewrittenEnvSource(mode, c.envFrom[k], pool, namespace, account).bound;
        var e := c.envFrom[k];
        assert ConfigMapCandidate(e.configMapRef.value) in ContainerCandidates(r, c);
      }
    }
  }

  /** A container's pass with nothing eligible leaves the container as it was and binds nothing. */
  lemma RewrittenContainerUnbound(r: Replacer, mode: BindingMode, c: Container, pool: seq<Artifact>, namespace: string, account: string)
    requires NoneEligible(mode, ContainerCandidates(r, c), pool, namespace, account)
    ensures RewrittenContainer(r, mode, c, pool, namespace, account) == Rewrite(c, {})
  {
    if r == ConfigMapEnv {
      var es := RewrittenEnvSources(mode, c.envFrom, pool, namespace, account);
      EnvSourcesBound(mode, c.envFrom, pool, namespace, account);
      forall k | 0 <= k < |c.envFrom|
        ensures RewrittenEnvSource(mode, c.envFrom[k], pool, namespace, account) == Rewrite(c.envFrom[k], {})
      {
        var e := c.envFrom[k];
        if e.configMapRef.Some? {
          assert ConfigMapCandidate(e.configMapRef.value) in ContainerCandidates(r, c);
        }
      }
      assert es.value == c.envFrom;
      assert es.bound == {};
    }
  }

  /**
   * What one pass binds: only artifacts that `Select` chose for a reference the replacer
   * finds in the manifest it runs on, so pool artifacts of the replacer's type, eligible
   * for that reference. With `AppliedBindsSelected` this makes the bound set exactly the
   * selected artifacts.
   */
  lemma {:induction false} AppliedBindsCandidates(r: Replacer, mode: BindingMode, m: Manifest, pool: seq<Artifact>, namespace: string, account: string)
    ensures forall a :: a in Applied(r, mode, m, pool, namespace, account).boundArtifacts ==>
      a in pool && a.artifactType == ReplacerType(r) &&
      exists cand :: (cand in Candidates(r, m) && Select(mode, cand, pool, namespace, account) == Some(a) &&
        Eligible(mode, cand, a, namespace, account))
  {
    if m.Workload? {
      var spec := m.template;
      var cs := RewrittenContainers(r, mode, spec.containers, pool, namespace, account);
      var ics := RewrittenContainers(r, mode, spec.initContainers, pool, namespace, account);
      ContainersBound(r, mode, spec.containers, pool, namespace, account);
      ContainersBound(r, mode, spec.initContainers, pool, namespace, account);
      forall a | a in cs.bound + ics.bound
        ensures a in pool && a.artifactType == ReplacerType(r) &&
          exists cand :: (cand in Candidates(r, m) && Select(mode, cand, pool, namespace, account) == Some(a) &&
            Eligible(mode, cand, a, namespace, account))
      {
        var c: Container;
        if a in cs.bound {
          var k :| 0 <= k < |spec.containers| && a in RewrittenContainer(r, mode, spec.containers[k], pool, namespace, account).bound;
          c := spec.containers[k];
        } else {
          var k :| 0 <= k < |spec.initContainers| && a in RewrittenContainer(r, mode, spec.initContainers[k], pool, namespace, account).bound;
          c := spec.initContainers[k];
        }
        assert c in AllContainers(spec);
        RewrittenContainerBinds(r, mode, c, pool, namespace, account);
        var cand :| cand in ContainerCandidates(r, c) && Select(mode, cand, pool, namespace, account) == Some(a) &&
          Eligible(mode, cand, a, namespace, account);
        assert cand in Candidates(r, m);
      }
    }
  }

  /** One pass with nothing eligible returns the manifest unchanged and binds nothing. */
  lemma {:induction false} AppliedUnbound(r: Replacer, mode: BindingMode, m: Manifest, pool: seq<Artifact>, namespace: string, account: string)
    requires NoneEligible(mode, Candidates(r, m), pool, namespace, account)
    ensures Applied(r, mode, m, pool, namespace, account) == ReplaceResult(m, {})
  {
    if m.Workload? {
      var spec := m.template;
      forall c | c in AllContainers(spec)
        ensures RewrittenContainer(r, mode, c, pool, namespace, account) == Rewrite(c, {})
      {
        assert ContainerCandidates(r, c) <= Candidates(r, m);
        RewrittenContainerUnbound(r, mode, c, pool, namespace, account);
      }
      var cs := RewrittenContainers(r, mode, spec.containers, pool, namespace, account);
      var ics := RewrittenContainers(r, mode, spec.initContainers, pool, namespace, account);
      ContainersBound(r, mode, spec.containers, pool, namespace, account);
      ContainersBound(r, mode, spec.initContainers, pool, namespace, account);
      assert forall k :: 0 <= k < |spec.containers| ==> spec.containers[k] in AllContainers(spec);
      assert forall k :: 0 <= k < |spec.initContainers| ==> spec.initContainers[k] in AllContainers(spec);
      assert cs.value == spec.containers;
      assert ics.value == spec.initContainers;
      assert cs.bound == {} && ics.bound == {};
    }
  }

  /**
   * The outcome at one `envFrom` entry, against the bound set of the whole pass: an entry
   * naming a config map takes the reference of the artifact selected for it, and that
   * artifact is bound; an entry nothing is selected for, or naming none, stays as it was.
   */
  ghost predicate EnvSourceBoundIn(mode: BindingMode, before: EnvFromSource, after: EnvFromSource, bound: set<Artifact>,
                                   pool: seq<Artifact>, namespace: string, account: string)
  {
    (before.configMapRef.None? ==> after == before) &&
    (before.configMapRef.Some? ==>
      var hit := Select(mode, ConfigMapCandidate(before.configMapRef.value), pool, namespace, account);
      (hit.None? ==> after == before) &&
      (hit.Some? ==> after == EnvFromSource(Some(hit.value.reference)) && hit.value in bound))
  }

  /**
   * The outcome at one container under replacer `r`, against the bound set of the whole
   * pass: `dockerImage` treats its image as `EnvSourceBoundIn` treats an entry and leaves
   * the rest alone; `configMapEnv` does so for each `envFrom` entry and touches nothing
   * else; `hpaDeployment` leaves the container as it was.
   */
  ghost predicate ContainerBoundIn(r: Replacer, mode: BindingMode, before: Container, after: Container, bound: set<Artifact>,
                                   pool: seq<Artifact>, namespace: string, account: string)
  {
    match r
    case DockerImage =>
      (before.image.None? ==> after == before) &&
      (before.image.Some? ==>
        var hit := Select(mode, ImageCandidate(before.image.value), pool, namespace, account);
        (hit.None? ==> after == before) &&
        (hit.Some? ==> after == before.(image := Some(hit.value.reference)) && hit.value in bound))
    case ConfigMapEnv =>
      after == before.(envFrom := after.envFrom) && |after.envFrom| == |before.envFrom| &&
      forall j :: 0 <= j < |before.envFrom| ==>
        EnvSourceBoundIn(mode, before.envFrom[j], after.envFrom[j], bound, pool, namespace, account)
    case HpaDeployment => after == before
  }

  /** A container's own pass has the outcome `ContainerBoundIn` describes. */
  lemma RewrittenContainerBoundIn(r: Replacer, mode: BindingMode, c: Container, pool: seq<Artifact>, namespace: string, account: string)
    ensures var one := RewrittenContainer(r, mode, c, pool, namespace, account);
      ContainerBoundIn(r, mode, c, one.value, one.bound, pool, namespace, account)
  {
    if r == ConfigMapEnv {
      var es := RewrittenEnvSources(mode, c.envFrom, pool, namespace, account);
      EnvSourcesBound(mode, c.envFrom, pool, namespace, account);
      forall j | 0 <= j < |c.envFrom|
        ensures EnvSourceBoundIn(mode, c.envFrom[j], es.value[j], es.bound, pool, namespace, account)
      {
        var one := RewrittenEnvSource(mode, c.envFrom[j], pool, namespace, account);
        assert forall a :: a in one.bound ==> a in es.bound;
      }
    }
  }

  /**
   * The hit direction of one pass over a workload: every container and init container
   * keeps its place, and at each of them the artifact selected for a reference replaces
   * it and is bound, while a reference nothing is selected for stays as it was.
   */
  lemma {:induction false} AppliedBindsSelected(r: Replacer, mode: BindingMode, kind: WorkloadKind, name: string, spec: PodSpec,
                                                pool: seq<Artifact>, namespace: string, account: string)
    ensures var res := Applied(r, mode, Workload(kind, name, spec), pool, namespace, account);
      res.manifest.Workload? && res.manifest.kind == kind && res.manifest.name == name &&
      |res.manifest.template.containers| == |spec.containers| &&
      |res.manifest.template.initContainers| == |spec.initContainers|
    ensures var res := Applied(r, mode, Workload(kind, name, spec), pool, namespace, account);
      forall k :: 0 <= k < |spec.containers| ==>
        ContainerBoundIn(r, mode, spec.containers[k], res.manifest.template.containers[k], res.boundArtifacts, pool, namespace, account)
    ensures var res := Applied(r, mode, Workload(kind, name, spec), pool, namespace, account);
      forall k :: 0 <= k < |spec.initContainers| ==>
        ContainerBoundIn(r, mode, spec.initContainers[k], res.manifest.template.initContainers[k], res.boundArtifacts, pool, namespace, account)
  {
    var res := Applied(r, mode, Workload(kind, name, spec), pool, namespace, account);
    var cs := RewrittenContainers(r, mode, spec.containers, pool, namespace, account);
    var ics := RewrittenContainers(r, mode, spec.initContainers, pool, namespace, account);
    ContainersBound(r, mode, spec.containers, pool, namespace, account);
    ContainersBound(r, mode, spec.initContainers, pool, namespace, account);
    forall k | 0 <= k < |spec.containers|
      ensures ContainerBoundIn(r, mode, spec.containers[k], cs.value[k], res.boundArtifacts, pool, namespace, account)
    {
      var one := RewrittenContainer(r, mode, spec.containers[k], pool, namespace, account);
      RewrittenContainerBoundIn(r, mode, spec.containers[k], pool, namespace, account);
      assert forall a :: a in one.bound ==> a in res.boundArtifacts;
    }
    forall k | 0 <= k < |spec.initContainers|
      ensures ContainerBoundIn(r, mode, spec.initContainers[k], ics.value[k], res.boundArtifacts, pool, namespace, account)
    {
      var one := RewrittenContainer(r, mode, spec.initContainers[k], pool, namespace, account);
      RewrittenContainerBoundIn(r, mode, spec.initContainers[k], pool, namespace, account);
      assert forall a :: a in one.bound ==> a in res.boundArtifacts;
    }
  }

  /** Everything `replaceAll` binds comes from the pool and passes the scoping rule. */
  lemma {:induction false} ReplacedBindsFromPool(replacers: seq<Replacer>, mode: BindingMode, m: Manifest, pool: seq<Artifact>, namespace: string, account: string)
    ensures forall a :: a in Replaced(replacers, mode, m, pool, namespace, account).boundArtifacts ==>
      a in pool && InScope(a, namespace, account)
    decreases |replacers|
  {
    if replacers != [] {
      var init := replacers[..|replacers| - 1];
      ReplacedBindsFromPool(init, mode, m, pool, namespace, account);
      var before := Replaced(init, mode, m, pool, namespace, account);
      AppliedBindsCandidates(replacers[|replacers| - 1], mode, before.manifest, pool, namespace, account);
    }
  }

  /** Every pass leaves the manifest alone unless it binds something. */
  lemma {:induction false} ReplacedUnboundIsUnchanged(replacers: seq<Replacer>, mode: BindingMode, m: Manifest, pool: seq<Artifact>, namespace: string, account: string)
    ensures Replaced(replacers, mode, m, pool, namespace, account).boundArtifacts == {} ==>
      Replaced(replacers, mode, m, pool, namespace, account).manifest == m
    decreases |replacers|
  {
    if replacers != [] {
      var init := replacers[..|replacers| - 1];
      var r := replacers[|replacers| - 1];
      ReplacedUnboundIsUnchanged(init, mode, m, pool, namespace, account);
      var before := Replaced(init, mode, m, pool, namespace, account);
      if Applied(r, mode, before.manifest, pool, namespace, account).boundArtifacts == {} {
        AppliedUnboundIsUnchanged(r, mode, before.manifest, pool, namespace, account);
      }
    }
  }

  /** A pass that binds nothing changes nothing. */
  lemma AppliedUnboundIsUnchanged(r: Replacer, mode: BindingMode, m: Manifest, pool: seq<Artifact>, namespace: string, account: string)
    requires Applied(r, mode, m, pool, namespace, account).boundArtifacts == {}
    ensures Applied(r, mode, m, pool, namespace, account).manifest == m
  {
    if m.Workload? {
      var spec := m.template;
      ContainersUnboundAreUnchanged(r, mode, spec.containers, pool, namespace, account);
      ContainersUnboundAreUnchanged(r, mode, spec.initContainers, pool, namespace, account);
    }
  }

  lemma ContainersUnboundAreUnchanged(r: Replacer, mode: BindingMode, cs: seq<Container>, pool: seq<Artifact>, namespace: string, account: string)
    requires RewrittenContainers(r, mode, cs, pool, namespace, account).bound == {}
    ensures RewrittenContainers(r, mode, cs, pool, namespace, account).value == cs
  {
    var res := RewrittenContainers(r, mode, cs, pool, namespace, account);
    ContainersBound(r, mode, cs, pool, namespace, account);
    forall k | 0 <= k < |cs| ensures res.value[k] == cs[k] {
      var c := cs[k];
      var one := RewrittenContainer(r, mode, c, pool, namespace, account);
      assert one.bound == {};
      if r == ConfigMapEnv {
        var es := RewrittenEnvSources(mode, c.envFrom, pool, namespace, account);
        EnvSourcesBound(mode, c.envFrom, pool, namespace, account);
        forall j | 0 <= j < |c.envFrom| ensures es.value[j] == c.envFrom[j] {
          var e := RewrittenEnvSource(mode, c.envFrom[j], pool, namespace, account);
          assert e.bound == {};
        }
      }
    }
  }

  /**
   * The no-op rule: when no supplied artifact is eligible for anything `findAll` finds,
   * `replaceAll` returns a manifest equal to its input and binds nothing.
   */
  lemma {:induction false} ReplacedNoneEligible(replacers: seq<Replacer>, mode: BindingMode, m: Manifest, pool: seq<Artifact>, namespace: string, account: string)
    requires NoneEligible(mode, FindAll(replacers, m), pool, namespace, account)
    ensures Replaced(replacers, mode, m, pool, namespace, account) == ReplaceResult(m, {})
    decreases |replacers|
  {
    if replacers != [] {
      var init := replacers[..|replacers| - 1];
      var r := replacers[|replacers| - 1];
      assert FindAll(init, m) <= FindAll(replacers, m) by {
        forall a | a in FindAll(init, m) ensures a in FindAll(replacers, m) {
          var r' :| r' in init && a in Candidates(r', m);
          assert r' in replacers;
        }
      }
      ReplacedNoneEligible(init, mode, m, pool, namespace, account);
      assert Candidates(r, m) <= FindAll(replacers, m) by {
        assert r in replacers;
      }
      AppliedUnbound(r, mode, m, pool, namespace, account);
    }
  }

  /** With an empty pool `replaceAll` returns the manifest unchanged and binds nothing. */
  lemma ReplacedEmptyPool(replacers: seq<Replacer>, mode: BindingMode, m: Manifest, namespace: string, account: string)
    ensures Replaced(replacers, mode, m, [], namespace, account) == ReplaceResult(m, {})
  {
    ReplacedNoneEligible(replacers, mode, m, [], namespace, account);
  }

  /** When no supplied artifact has the name of anything found, nothing changes or binds. */
  lemma ReplacedNoNameMatch(replacers: seq<Replacer>, mode: BindingMode, m: Manifest, pool: seq<Artifact>, namespace: string, account: string)
    requires forall cand, a :: cand in FindAll(replacers, m) && a in pool ==> a.name != cand.name
    ensures Replaced(replacers, mode, m, pool, namespace, account) == ReplaceResult(m, {})
  {
    ReplacedNoneEligible(replacers, mode, m, pool, namespace, account);
  }

  // ---------------------------------------------------------------------------------
  // What `findAll` finds.

  /** Under `dockerImage`, a workload yields one candidate per image of any of its containers. */
  lemma FindAllImages(kind: WorkloadKind, name: string, spec: PodSpec)
    ensures forall a :: a in FindAll([DockerImage], Workload(kind, name, spec)) <==>
      exists c :: c in AllContainers(spec) && c.image.Some? && a == ImageCandidate(c.image.value)
  {
    var m := Workload(kind, name, spec);
    forall a ensures a in FindAll([DockerImage], m) <==>
      exists c :: c in AllContainers(spec) && c.image.Some? && a == ImageCandidate(c.image.value)
    {
      if a in FindAll([DockerImage], m) {
        var r :| r in [DockerImage] && a in Candidates(r, m);
        var c :| c in AllContainers(spec) && a in ContainerCandidates(r, c);
        assert c.image.Some? && a == ImageCandidate(c.image.value);
      }
      if exists c :: c in AllContainers(spec) && c.image.Some? && a == ImageCandidate(c.image.value) {
        var c :| c in AllContainers(spec) && c.image.Some? && a == ImageCandidate(c.image.value);
        assert a in ContainerCandidates(DockerImage, c);
        assert a in Candidates(DockerImage, m);
      }
    }
  }

  /** Under `configMapEnv`, a workload yields one candidate per config map any container names. */
  lemma FindAllConfigMaps(kind: WorkloadKind, name: string, spec: PodSpec)
    ensures forall a :: a in FindAll([ConfigMapEnv], Workload(kind, name, spec)) <==>
      exists c, e :: c in AllContainers(spec) && e in c.envFrom && e.configMapRef.Some? &&
        a == ConfigMapCandidate(e.configMapRef.value)
  {
    var m := Workload(kind, name, spec);
    forall a ensures a in FindAll([ConfigMapEnv], m) <==>
      exists c, e :: c in AllContainers(spec) && e in c.envFrom && e.configMapRef.Some? &&
        a == ConfigMapCandidate(e.configMapRef.value)
    {
      if a in FindAll([ConfigMapEnv], m) {
        var r :| r in [ConfigMapEnv] && a in Candidates(r, m);
        var c :| c in AllContainers(spec) && a in ContainerCandidates(r, c);
        var e :| e in c.envFrom && e.configMapRef.Some? && a == ConfigMapCandidate(e.configMapRef.value);
      }
      if exists c, e :: (c in AllContainers(spec) && e in c.envFrom && e.configMapRef.Some? &&
        a == ConfigMapCandidate(e.configMapRef.value))
      {
        var c, e :| c in AllContainers(spec) && e in c.envFrom && e.configMapRef.Some? &&
          a == ConfigMapCandidate(e.configMapRef.value);
        assert a in ContainerCandidates(ConfigMapEnv, c);
        assert a in Candidates(ConfigMapEnv, m);
      }
    }
  }

  /**
   * Under `hpaDeployment`, an autoscaler yields its scale target as a deployment artifact
   * when the target's kind is `Deployment`, and nothing for any other kind.
   */
  lemma FindAllScaleTarget(name: string, target: ScaleTargetRef)
    ensures FindAll([HpaDeployment], HorizontalPodAutoscaler(name, target)) ==
      if target.kind == "Deployment" then {CandidateOf(DeploymentType, target.name, target.name)} else {}
  {
    var m := HorizontalPodAutoscaler(name, target);
    assert forall r :: r in [HpaDeployment] <==> r == HpaDeployment;
    if target.kind == "Deployment" {
      assert CandidateOf(DeploymentType, target.name, target.name) in Candidates(HpaDeployment, m);
    }
  }

  // ---------------------------------------------------------------------------------
  // The scoping rule, over any workload.

  /** The only artifact of a one-artifact pool is selected exactly when it is eligible. */
  lemma SelectSingle(mode: BindingMode, cand: Artifact, a: Artifact, namespace: string, account: string)
    ensures Select(mode, cand, [a], namespace, account) ==
      if Eligible(mode, cand, a, namespace, account) then Some(a) else None
  {
  }

  /**
   * The hit direction at a single `envFrom` entry of any container or init container: the
   * artifact selected for the config map it names is bound by the pass.
   */
  lemma AppliedBindsSelectedConfigMap(mode: BindingMode, kind: WorkloadKind, name: string, spec: PodSpec,
                                      pool: seq<Artifact>, namespace: string, account: string, c: Container, j: int)
    requires c in AllContainers(spec) && 0 <= j < |c.envFrom| && c.envFrom[j].configMapRef.Some?
    ensures var hit := Select(mode, ConfigMapCandidate(c.envFrom[j].configMapRef.value), pool, namespace, account);
      hit.Some? ==> hit.value in Applied(ConfigMapEnv, mode, Workload(kind, name, spec), pool, namespace, account).boundArtifacts
  {
    var res := Applied(ConfigMapEnv, mode, Workload(kind, name, spec), pool, namespace, account);
    AppliedBindsSelected(ConfigMapEnv, mode, kind, name, spec, pool, namespace, account);
    if c in spec.containers {
      var k :| 0 <= k < |spec.containers| && spec.containers[k] == c;
      assert EnvSourceBoundIn(mode, c.envFrom[j], res.manifest.template.containers[k].envFrom[j], res.boundArtifacts, pool, namespace, account);
    } else {
      var k :| 0 <= k < |spec.initContainers| && spec.initContainers[k] == c;
      assert EnvSourceBoundIn(mode, c.envFrom[j], res.manifest.template.initContainers[k].envFrom[j], res.boundArtifacts, pool, namespace, account);
    }
  }

  /**
   * A config-map artifact supplied alone, for any workload that names its config map in
   * some container's or init container's `envFrom`: `replaceAll` binds it exactly when it
   * passes the scoping rule, and when it does not, the manifest comes back unchanged.
   */
  lemma ConfigMapBindsExactlyInScope(mode: BindingMode, kind: WorkloadKind, name: string, spec: PodSpec,
                                     a: Artifact, namespace: string, account: string)
    requires a.artifactType == ConfigMapType
    requires exists c, e :: c in AllContainers(spec) && e in c.envFrom && e.configMapRef == Some(a.name)
    ensures var m := Workload(kind, name, spec);
      Replaced([ConfigMapEnv], mode, m, [a], namespace, account).boundArtifacts ==
        if InScope(a, namespace, account) then {a} else {}
    ensures var m := Workload(kind, name, spec);
      !InScope(a, namespace, account) ==> Replaced([ConfigMapEnv], mode, m, [a], namespace, account).manifest == m
  {
    var m := Workload(kind, name, spec);
    var res := Applied(ConfigMapEnv, mode, m, [a], namespace, account);
    assert [ConfigMapEnv][..0] == [];
    assert Replaced([ConfigMapEnv], mode, m, [a], namespace, account).boundArtifacts == res.boundArtifacts;
    AppliedBindsCandidates(ConfigMapEnv, mode, m, [a], namespace, account);
    if InScope(a, namespace, account) {
      var c, e :| c in AllContainers(spec) && e in c.envFrom && e.configMapRef == Some(a.name);
      var j :| 0 <= j < |c.envFrom| && c.envFrom[j] == e;
      SelectSingle(mode, ConfigMapCandidate(a.name), a, namespace, account);
      AppliedBindsSelectedConfigMap(mode, kind, name, spec, [a], namespace, account, c, j);
    } else {
      assert res.boundArtifacts == {};
      ReplacedUnboundIsUnchanged([ConfigMapEnv], mode, m, [a], namespace, account);
    }
  }

  /** The hit direction at the image of any container or init container. */
  lemma AppliedBindsSelectedImage(mode: BindingMode, kind: WorkloadKind, name: string, spec: PodSpec,
                                  pool: seq<Artifact>, namespace: string, account: string, c: Container)
    requires c in AllContainers(spec) && c.image.Some?
    ensures var hit := Select(mode, ImageCandidate(c.image.value), pool, namespace, account);
      hit.Some? ==> hit.value in Applied(DockerImage, mode, Workload(kind, name, spec), pool, namespace, account).boundArtifacts
  {
    var res := Applied(DockerImage, mode, Workload(kind, name, spec), pool, namespace, account);
    AppliedBindsSelected(DockerImage, mode, kind, name, spec, pool, namespace, account);
    if c in spec.containers {
      var k :| 0 <= k < |spec.containers| && spec.containers[k] == c;
      assert ContainerBoundIn(DockerImage, mode, c, res.manifest.template.containers[k], res.boundArtifacts, pool, namespace, account);
    } else {
      var k :| 0 <= k < |spec.initContainers| && spec.initContainers[k] == c;
      assert ContainerBoundIn(DockerImage, mode, c, res.manifest.template.initContainers[k], res.boundArtifacts, pool, namespace, account);
    }
  }

  /** Some container or init container holds an image that artifact `a` may bind to under `mode`. */
  ghost predicate ImageFor(mode: BindingMode, spec: PodSpec, a: Artifact)
  {
    exists c :: c in AllContainers(spec) && c.image.Some? && ImageName(c.image.value) == a.name &&
      (mode == MatchNameAndTag || !HasTag(c.image.value))
  }

  /**
   * An image artifact supplied alone, for any workload: `replaceAll` binds it exactly when
   * some image has its name and the mode lets that image be rebound, whatever the
   * artifact's location and account; otherwise the manifest comes back unchanged.
   */
  lemma ImageBindsWhateverItsScope(mode: BindingMode, kind: WorkloadKind, name: string, spec: PodSpec,
                                   a: Artifact, namespace: string, account: string)
    requires a.artifactType == DockerImageType
    ensures var m := Workload(kind, name, spec);
      Replaced([DockerImage], mode, m, [a], namespace, account).boundArtifacts ==
        if ImageFor(mode, spec, a) then {a} else {}
    ensures var m := Workload(kind, name, spec);
      !ImageFor(mode, spec, a) ==> Replaced([DockerImage], mode, m, [a], namespace, account).manifest == m
  {
    var m := Workload(kind, name, spec);
    var res := Applied(DockerImage, mode, m, [a], namespace, account);
    assert [DockerImage][..0] == [];
    assert Replaced([DockerImage], mode, m, [a], namespace, account).boundArtifacts == res.boundArtifacts;
    AppliedBindsCandidates(DockerImage, mode, m, [a], namespace, account);
    ArtifactTypeKinds();
    if ImageFor(mode, spec, a) {
      var c :| c in AllContainers(spec) && c.image.Some? && ImageName(c.image.value) == a.name &&
        (mode == MatchNameAndTag || !HasTag(c.image.value));
      SelectSingle(mode, ImageCandidate(c.image.value), a, namespace, account);
      AppliedBindsSelectedImage(mode, kind, name, spec, [a], namespace, account, c);
    } else {
      forall cand | cand in Candidates(DockerImage, m) ensures !Eligible(mode, cand, a, namespace, account) {
        var c :| c in AllContainers(spec) && cand in ContainerCandidates(DockerImage, c);
      }
      AppliedUnbound(DockerImage, mode, m, [a], namespace, account);
      ReplacedUnboundIsUnchanged([DockerImage], mode, m, [a], namespace, account);
    }
  }

  /** `hpaDeployment` only discovers: under `replaceAll` it rewrites and binds nothing. */
  lemma HpaReplacesNothing(mode: BindingMode, m: Manifest, pool: seq<Artifact>, namespace: string, account: string)
    ensures Replaced([HpaDeployment], mode, m, pool, namespace, account) == ReplaceResult(m, {})
  {
    assert [HpaDeployment][..0] == [];
    if m.Workload? {
      var spec := m.template;
      ContainersBound(HpaDeployment, mode, spec.containers, pool, namespace, account);
      ContainersBound(HpaDeployment, mode, spec.initContainers, pool, namespace, account);
      ContainersUnboundAreUnchanged(HpaDeployment, mode, spec.containers, pool, namespace, account);
      ContainersUnboundAreUnchanged(HpaDeployment, mode, spec.initContainers, pool, namespace, account);
    }
  }
}
