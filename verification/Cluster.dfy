/** What the API server stores about runner pods and their owners, and what
    GitHub and the kubelet know about the runner inside each pod. */
module Cluster {
  import opened Basics

  const RUNNER_POD_FINALIZER := "actions.summerwind.dev/runner-pod"
  const RUNNER_CONTAINER := "runner"
  /** Times are whole seconds, the precision in which the API server stores them. */
  const REGISTRATION_TIMEOUT := 600
  const RECREATION_DELAY := 600

  datatype Phase = Pending | Running | Succeeded | Failed | Unknown

  /** `exit` is the exit code of a terminated container. */
  datatype ContainerStatus = ContainerStatus(name: string, exit: Option<int>)

  datatype RunnerId = NoId | Id(n: int) | Malformed

  /** The annotation keys ARC writes on a runner pod. */
  datatype Mark = RequestMark | StartMark | WaitMark | CompleteMark | IdMark(n: int)

  /** Fixed when the pod is created: the runner-set label, the runner container's
      environment, and the ephemeral setting in it. */
  datatype PodSpec = PodSpec(labelled: bool, hasEnv: bool, ephemeral: bool)

  /** Which annotations are present. */
  datatype Marks = Marks(requested: bool, started: bool, waiting: bool, complete: bool, id: RunnerId)

  datatype PodStatus = PodStatus(phase: Phase, containers: seq<ContainerStatus>, readySince: Option<int>)

  datatype Pod = Pod(spec: PodSpec, marks: Marks, deleting: bool, finalizers: seq<string>, status: PodStatus)

  /** GitHub's answer to one RemoveRunner call. */
  datatype Answer = Removed | Status(code: int) | RateLimited | NoResponse

  const BUSY := Status(422)
  const FORBIDDEN := Status(403)

  /** The runner process and its registration. `busy` is what GitHub believes,
      `executing` is what the container does; `calls` logs RemoveRunner answers. */
  datatype Runner = Runner(
    registered: Option<int>, removed: bool, busy: bool, executing: bool, calls: seq<Answer>)

  /** A runner goes by the name of its pod, so the two are kept together. */
  datatype RunnerPod = RunnerPod(pod: Pod, runner: Runner)

  datatype OwnerStatus =
    | RunnerStatus(phase: string)
    | StatefulSetStatus(specReplicas: Option<int>, currentReplicas: int)

  /** A Runner or a StatefulSet, with the pods it controls. */
  datatype Owner = Owner(
    hash: Option<string>, created: int, syncTime: Option<int>,
    requested: bool, complete: bool, deleting: bool,
    status: OwnerStatus, pods: seq<RunnerPod>)

  /** `writesLeft` bounds the API writes that succeed before the next one fails. */
  datatype Server = Server(owners: map<nat, Owner>, next: nat, writesLeft: nat)

  /** Exit code of the first terminated runner container. */
  function RunnerExit(containers: seq<ContainerStatus>): Option<int> {
    if containers == [] then None
    else if containers[0].name == RUNNER_CONTAINER && containers[0].exit.Some? then containers[0].exit
    else RunnerExit(containers[1..])
  }

  /** The pod is over as far as ARC can see. */
  predicate Stopped(s: PodStatus) {
    s.phase.Succeeded? || s.phase.Failed? || (s.phase.Running? && RunnerExit(s.containers).Some?)
  }

  /** The runner container has terminated, whatever phase is reported. */
  predicate Ended(s: PodStatus) {
    s.phase.Succeeded? || s.phase.Failed? || RunnerExit(s.containers).Some?
  }

  predicate Has(k: Marks, m: Mark) {
    match m
    case RequestMark => k.requested
    case StartMark => k.started
    case WaitMark => k.waiting
    case CompleteMark => k.complete
    case IdMark(_) => !k.id.NoId?
  }

  function With(k: Marks, m: Mark): (k': Marks)
    ensures Has(k', m)
  {
    match m
    case RequestMark => k.(requested := true)
    case StartMark => k.(started := true)
    case WaitMark => k.(waiting := true)
    case CompleteMark => k.(complete := true)
    case IdMark(n) => k.(id := Id(n))
  }

  /** Status.Phase of a Runner, or observed against wanted replicas of a StatefulSet. */
  predicate Synced(s: OwnerStatus) {
    match s
    case RunnerStatus(phase) => phase != ""
    case StatefulSetStatus(spec, current) => current == (if spec.None? then 1 else spec.value)
  }

  /** The runner can never execute a job again: its container has terminated, or
      GitHub has removed it. */
  predicate Dead(rp: RunnerPod) {
    Ended(rp.pod.status) || rp.runner.removed
  }

  const NO_MARKS := Marks(false, false, false, false, NoId)

  function FreshPod(spec: PodSpec): Pod {
    Pod(spec, NO_MARKS, false, [], PodStatus(Pending, [], None))
  }

  const FRESH_RUNNER := Runner(None, false, false, false, [])
}
