/**
 * The part of a Kubernetes manifest the artifact replacer reads and writes: the pod
 * template of a workload (its containers and init containers, their images and their
 * `envFrom` config-map references) and the scale target of a horizontal pod autoscaler.
 */
module Manifests {
  import opened Wrappers

  /** One `envFrom` entry; only a config-map source is relevant here. */
  datatype EnvFromSource = EnvFromSource(configMapRef: Option<string>)

  datatype Container = Container(name: string, image: Option<string>, envFrom: seq<EnvFromSource>)

  datatype PodSpec = PodSpec(containers: seq<Container>, initContainers: seq<Container>)

  datatype WorkloadKind = Deployment | ReplicaSet

  datatype ScaleTargetRef = ScaleTargetRef(kind: string, name: string)

  datatype Manifest =
    | Workload(kind: WorkloadKind, name: string, template: PodSpec)
    | HorizontalPodAutoscaler(name: string, scaleTargetRef: ScaleTargetRef)

  /** Every container of a pod spec, primary containers first, then init containers. */
  function AllContainers(spec: PodSpec): seq<Container>
  {
    spec.containers + spec.initContainers
  }

  /** The container the tests build around an image. */
  function ContainerWithImage(image: string): Container
  {
    Container("container", Some(image), [])
  }

  /** The deployment the tests build from its containers and init containers. */
  function DeploymentOf(containers: seq<Container>, initContainers: seq<Container>): Manifest
  {
    Workload(Deployment, "my-app-deployment", PodSpec(containers, initContainers))
  }

  /** The deployment the tests build around one container with the given image. */
  function DeploymentWithContainer(image: string): Manifest
  {
    DeploymentOf([ContainerWithImage(image)], [])
  }

  /** The deployment the tests build around one init container with the given image. */
  function DeploymentWithInitContainer(image: string): Manifest
  {
    DeploymentOf([], [ContainerWithImage(image)])
  }

  /** The unnamed container of the replica set the tests build: no image, one `envFrom` entry. */
  function EnvFromContainer(configMap: string): Container
  {
    Container("", None, [EnvFromSource(Some(configMap))])
  }

  /** The replica set the tests build: one container whose one `envFrom` names a config map. */
  function ReplicaSetWithEnvFrom(configMap: string): Manifest
  {
    Workload(ReplicaSet, "my-app-deployment", PodSpec([EnvFromContainer(configMap)], []))
  }

  /** The autoscaler the tests build around a scale target. */
  function HpaOf(kind: string, name: string): Manifest
  {
    HorizontalPodAutoscaler("my-hpa", ScaleTargetRef(kind, name))
  }
}
