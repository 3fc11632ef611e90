# Runner lifecycle and autoscaling, verified

A Dafny model of the control loops of actions-runner-controller (ARC): how runner
pods are unregistered before they are deleted, how many runners are created and
which are given up, how a deployment replaces its replica sets, how webhooks and
reconciles decide the number of replicas, and the smaller cores they rely on
(key index, runner groups, glob matcher, schedules, token cache).

`dafny verify dfyconfig.toml` checks everything.

## How it is organised

| file | content |
|---|---|
| `Cluster.dfy` | what the API server stores about pods and owners, what GitHub and the kubelet know about the runner in a pod |
| `PodProtocol.dfy`, `PodController.dfy` | the runner-pod controller as functions on one pod; the same controller as a class that patches the pod |
| `Allocation.dfy`, `OwnerProtocol.dfy`, `OwnerController.dfy` | which owners to create, mark or delete; the synchronisation as functions; the same as a class over the API server |
| `OwnerSteps.dfy`, `Termination.dfy` | what one synchronisation does to one owner; all interleavings of controllers, GitHub and kubelet |
| `Handshake.dfy`, `Guarding.dfy` | the graceful stop ends; no pod disappears before it |
| `ReplicaBound.dfy`, `SyncResults.dfy` | never more runners than desired; what a synchronisation creates, gives up and deletes |
| `Rollout.dfy`, `RolloutController.dfy` | replacement of replica sets as functions; the reconciler as a class |
| `RolloutRuns.dfy`, `RolloutTies.dfy` | rollouts that must end; for every other start, runs that do not |
| `StatusReport.dfy`, `Removal.dfy` | what a published status says; one set from its creation to its removal by a rollout |
| `Reservations.dfy`, `Autoscaler.dfy`, `EffectiveTime.dfy` | the reservation ledger, the autoscaler's state machine, runs of both |
| `Schedule.dfy` | recurring overrides |
| `ScaleTargets.dfy`, `RunnerGroups.dfy`, `StableOrder.dfy` | the webhook's search for autoscalers, groups in order of precedence, stable sorting |
| `Glob.dfy`, `TokenCache.dfy`, `Basics.dfy` | the glob matcher, the registration-token cache, shared vocabulary |

Where the source changes things step by step, the model has two layers: a class
or a method with the source's loops and early returns, and a specification
function it is proved equal to. The theorems about runs speak about the functions.

## The main results

- No job is interrupted. In every interleaving of owner synchronisations, pod
  reconciles, GitHub and kubelet steps, with API writes failing at any point, once
  ARC starts to delete an owner of the desired template none of its runners executes
  a job, then or later. A 403 answer from GitHub is the only answer that breaks this,
  and that is proved as an equivalence (`OnlyForbiddenCompletesBusyRunner`).
- The handshake ends: when a reconcile completes an unregistration is characterised
  exactly (`CompletesIff`), and in any run as many such reconciles and full sweeps as a
  marked owner needs start its deletion (`HandshakeEnds`).
- The four phases stay in order in every run, 403 answers and outside deletions
  included, and ARC's pod finalizer goes only after the complete mark. From the first
  reconcile of a live pod on, the pod cannot disappear before that
  (`GoneOnlyAfterComplete`), and every pod of a marked owner is marked
  (`MarkedOwnersAskAll`).
- An ephemeral runner gets at most one RemoveRunner call that GitHub answers with
  removed, busy or forbidden.
- From an empty start the live owners never outnumber the desired replicas. A
  synchronisation creates exactly the deficit while its gate is open (`CreatesExactly`)
  and gives up the oldest running owners first (`MarksTheOldest`).
- A replica set that reports zero replicas is idle, and stays idle for as long as
  nothing is wanted of it. A rollout deletes an old set on a zero or unset status
  without asking whether it was drained (`DeletionIgnoresDraining`), and what it deletes
  is idle exactly when the zero was reported since nothing is wanted of the set
  (`RemovalIsGracefulIff`): spec and status alone do not tell.
- A rollout must end exactly when its start settles (`EndsIffSettles`): among the sets
  of the newest second none lacks its hash, and at most one has the wanted hash unless
  no replicas are wanted; and if sets may be created in that second, all of them have
  the wanted hash. Then its writes are bounded by a measure of the start that does not
  depend on the order of listing, and it ends in exactly the wanted set, with the
  deployment's template. From any other
  start some run has any number of fair reconciles and does not converge.
- The autoscaler does not flap and stays within its bounds. Which webhook turns back
  the effective time that it hands on is characterised exactly, for all amounts and
  durations; without one it never goes backwards, and with webhooks of one size and
  duration there is none.
- Two requests share a key of the token cache, two index keys of the webhook are
  mistaken for each other, and a monthly override is active twice, each under an exact
  condition.
- A webhook changes the reserved capacity, and the count that the next reconcile records,
  by exactly its amount.
- Pruning reservations and cleaning the token cache are unobservable.
- The glob matcher's answer, including its index-out-of-range fault, is characterised
  exactly for every pattern with a body and every text.

## Assumptions

- Reads are consistent: a synchronisation or reconcile sees the state it starts from,
  and runs as one step. Every API write in it may fail; the number of writes that
  succeed is a parameter of the step.
- GitHub's answers are honest: a listed ID is the registered one, and only a runner
  that GitHub does not believe to be busy is removed. Listings may lag behind. A
  removed runner, and one whose container has terminated, gets no job again
  (`controllers/runner_graceful_stop.go:98-99`, `361-362`).
- An owner gains no pod after it is marked. An owner without a template hash label
  makes the sweep crash, as the nil dereference at
  `controllers/runner_pod_owner.go:505` does.
- The theorem about jobs leaves out three kinds of step: a 403 answer, deletion of a
  pod from outside, and the deletion of owners of another template, which happens
  without the request phase (`controllers/runner_pod_owner.go:463-478`).
- `unregisterRunner` never returns false without an error, so the branches at
  `controllers/runner_graceful_stop.go:196-220` cannot be reached and are not modelled.
- Owner, repository, organization and enterprise names have no slash.
- The bound on live owners is for a constant template and count, one pod per owner,
  complete listings, no outside deletion and no registration timeout; an owner reports
  itself synced only once its pod exists.
- A rollout has a fixed template, selector and count; its effective time may change.
  A reconcile counts as fair when its first write succeeds, the newest set is ready and
  the drained sets are empty. Any other reconciles may come in between.
- In a rollout sets have distinct names, sets of the same second are listed in any
  order, a new set gets no earlier second than the newest has, and a deleted set is gone.
- Times are whole seconds in the pod and owner protocols, nanoseconds in the schedules
  and the autoscaler; what the autoscaler stores is rounded down to seconds, as the API
  server does. The template hash is an abstract value.
- A status patch of the autoscaler and its patch of the scale target are one step.

Where documentation and code disagree the model follows the code: the deployment's
ReadyReplicas is documented as the sum of ready replicas
(`api/v1alpha1/runnerdeployment_types.go:57-60`), the code sums available ones.

## Model

| member | source | states |
|---|---|---|
| `PodController.RunnerContainerExitCode` | controllers/runner_controller.go:174-186 | the exit code of the first terminated runner container, None if there is none |
| `PodController.RunnerPodOrContainerIsStopped` | controllers/runner_controller.go:188-208 | true exactly for a succeeded or failed pod, or a running one whose runner container has terminated |
| `PodController.AddFinalizer` | controllers/runner_controller.go:857-870 | appends the finalizer exactly when it is absent |
| `PodController.RemoveFinalizer` | controllers/runner_controller.go:872-885 | removes every occurrence, keeps the others in order, and says whether there was one |
| `PodController.PodWorld.AnnotatePodOnce` | controllers/runner_graceful_stop.go:50-69 | an existing annotation is left alone; otherwise one patch that may fail |
| `PodController.PodWorld.EnsureRunnerUnregistration` | controllers/runner_graceful_stop.go:72-223 | refines the decision function for every recorded ID, listing and GitHub answer |
| `PodController.PodWorld.TickRunnerGracefulStop` | controllers/runner_graceful_stop.go:29-45 | refines the tick: start mark, unregistration, complete mark, stopping at the first failure |
| `PodController.PodWorld.EnsureRunnerPodRegistered` | controllers/runner_graceful_stop.go:225-248 | refines the recording of the runner ID for a pod that is not stopped |
| `PodController.PodWorld.Reconcile` | controllers/runner_pod_controller.go:55-201 | refines the whole reconcile on live and on deleted pods, whichever write fails, and says when a stuck pod is deleted by force |
| `PodProtocol.Reconcile` | controllers/runner_pod_controller.go:55-201 | a reconcile takes no mark back, never sets the request mark, and touches neither spec, status nor deletion; a pod that is not ARC's is left as it is, and a live one of ARC's has the finalizer after a reconcile with a successful write |
| `PodProtocol.ReconcileKeepsPhaseOrder` | controllers/runner_graceful_stop.go:29-69 | complete implies started, started implies requested or being deleted, kept by every reconcile |
| `PodProtocol.FinalizerOnlyAfterComplete` | controllers/runner_pod_controller.go:108-134 | a reconcile drops ARC's finalizer only from a pod being deleted whose unregistration is complete |
| `PodProtocol.FinalizerGoesIff` | controllers/runner_pod_controller.go:108-134 | with healthy patches ARC gives up its finalizer on a pod being deleted if and only if the runner ID can be told and the runner is unregistered, was never registered, has stopped, or is settled by GitHub's answer |
| `PodProtocol.OtherFinalizersStay` | controllers/runner_pod_controller.go:92-134 | every reconcile leaves the finalizers of others, and their order |
| `Guarding.GoneOnlyAfterComplete` | controllers/runner_pod_controller.go:92-134 | in every run: once a reconcile with a successful write has seen a live pod of ARC's, in every later state the API server may remove the pod only if it carries the complete mark |
| `PodProtocol.ReconcileKeepsTruth` | controllers/runner_graceful_stop.go:225-248 | a recorded ID is the registered one and an executing runner is alive, kept by every reconcile with honest answers |
| `PodProtocol.CompleteMeansDead` | controllers/runner_graceful_stop.go:72-223 | without a 403 answer the complete mark is only set on a runner that can never execute a job again |
| `PodProtocol.OnlyForbiddenCompletesBusyRunner` | controllers/runner_graceful_stop.go:119-193 | while a job runs, a reconcile that asks GitHub completes the unregistration if and only if the answer is 403 |
| `PodProtocol.CompletesIff` | controllers/runner_graceful_stop.go:72-248 | with healthy patches one reconcile completes the unregistration of a requested pod if and only if the ID is readable and the runner has stopped or GitHub's answer settles it |
| `PodProtocol.RecordsId` | controllers/runner_graceful_stop.go:225-248 | a live pod under the finalizer gets its runner ID as soon as GitHub lists it, asked to stop or not, and no other |
| `PodProtocol.WaitsIff` | controllers/runner_graceful_stop.go:119-193 | with healthy patches a requested pod gets the wait mark if and only if its runner is ephemeral, not stopped, of known ID, and GitHub calls it busy |
| `PodProtocol.ForcesIff` | controllers/runner_pod_controller.go:136-165 | a pod being deleted without ARC's finalizer is deleted by force if and only if its deletion timestamp is more than a minute past, and is never changed |
| `PodProtocol.ReconcileAsksOnce` | controllers/runner_graceful_stop.go:97-195 | with healthy patches an ephemeral runner is asked about again only until GitHub has decided |
| `PodProtocol.NoCallAfterComplete` | controllers/runner_graceful_stop.go:97-119 | no RemoveRunner call on a pod with the complete mark |
| `OwnerController.CountPods` | controllers/runner_pod_owner.go:169-198 | the six counters of one owner, each the number of pods in its activity |
| `OwnerController.CountsPartition` | controllers/runner_pod_owner.go:169-198 | the five activities add up to the total |
| `OwnerController.DeletionSafe` | controllers/runner_pod_owner.go:535-545 | the count reaches the number of pods exactly when every pod is unregistered or being deleted |
| `SyncResults.RegistrationTimesOut` | controllers/runner_pod_owner.go:169-198 | a pod that runs without a recorded ID counts as running up to ten minutes after it became ready, and no longer after that |
| `SyncResults.WaitingPodsCount` | controllers/runner_pod_owner.go:169-198 | a pod that has not started counts as about to run unless it is being deleted, and exactly the stopped pods count as completed |
| `OwnerController.OwnerWorld.VisitOwner` | controllers/runner_pod_owner.go:497-597 | refines one round of the sweep: skip, delete, complete, halt, crash or keep |
| `OwnerController.OwnerWorld.CollectPodsForOwners` | controllers/runner_pod_owner.go:485-600 | refines the sweep over all owners, with its writes, kept owners and last sync time |
| `OwnerController.SumRunning` | controllers/runner_pod_owner.go:305-333 | running pods, and running or pending pods, over the current owners |
| `OwnerController.OwnerWorld.CreateReplicas` | controllers/runner_pod_owner.go:370-377 | creates the deficit, or as many as the API server accepts |
| `OwnerController.OwnerWorld.MarkForUnregistration` | controllers/runner_pod_owner.go:433-449 | pods first, then the owner; a failure leaves the owner unmarked |
| `OwnerController.OwnerWorld.MarkRedundantOwners` | controllers/runner_pod_owner.go:421-452 | marks the owners in turn and stops at the first failed write |
| `OwnerController.OwnerWorld.ScaleDown` | controllers/runner_pod_owner.go:384-460 | waits when too much is retained; otherwise exactly the desired number is retained and the rest is marked |
| `OwnerController.OwnerWorld.DeleteOutdated` | controllers/runner_pod_owner.go:463-483 | deletes one owner of another template per synchronisation, and reports only when there is none |
| `OwnerController.OwnerWorld.SyncRunnerPodsOwners` | controllers/runner_pod_owner.go:252-483 | refines the whole synchronisation for every listing, request and number of successful writes |
| `Allocation.SelectRedundant` | controllers/runner_pod_owner.go:403-419 | the newest-first pass gives up exactly the owners that run nothing or come after enough are retained |
| `Allocation.RetainsEnough` | controllers/runner_pod_owner.go:403-460 | the pass retains at least the desired number or everything that runs |
| `Allocation.RetainsExactly` | controllers/runner_pod_owner.go:403-419 | with at most one running pod per owner it retains exactly the smaller of the two |
| `Allocation.NeverInvalid` | controllers/runner_pod_owner.go:384-460 | the "invalid state" panic is unreachable for any owners and any desired count |
| `Allocation.ScaleDownKeepsNewest` | controllers/runner_pod_owner.go:291-419 | the kept owners hold exactly the desired number of running pods and are the newest with running pods |
| `OwnerSteps.SyncStep` | controllers/runner_pod_owner.go:252-600 | every synchronisation, seen from any owner: marks only grow, phases and safety facts are kept, deletion of a desired-template owner starts only over dead runners |
| `OwnerSteps.SweepMovesOn` | controllers/runner_pod_owner.go:522-563 | a sweep not cut short completes every marked owner whose pods are safe and starts the deletion of every complete one |
| `OwnerSteps.MarkPodsMarks` | controllers/runner_pod_owner.go:433-443 | annotating an owner's pods without a failure leaves every one of them with the request mark |
| `SyncResults.LastSyncIsLatest` | controllers/runner_pod_owner.go:566-574 | the last sync time of a sweep is the latest of the owners it keeps |
| `SyncResults.GoesToEndIff` | controllers/runner_pod_owner.go:497-597 | with healthy writes a sweep goes to its end if and only if every listed owner has a template hash and is on its way out, or follows its spec (a Runner with a phase, a StatefulSet with the replicas asked for) and has a pod that is not over, or none |
| `SyncResults.CreatesExactly` | controllers/runner_pod_owner.go:333-383 | a synchronisation that reaches its plan creates exactly the deficit, or as many as the API server takes, if runners are missing and no kept owner was synced after the effective time and within ten minutes; and else none |
| `SyncResults.BornNow` | controllers/runnerreplicaset_controller.go:169-192 | an owner that a synchronisation adds has the template asked for and is synced now, unmarked and without pods |
| `SyncResults.NoBurst` | controllers/runner_pod_owner.go:333-383 | in every run an owner created for ephemeral runners holds back any further creation for ten minutes while it stays, unless the effective time moves past its creation |
| `SyncResults.NewlyMarked` | controllers/runner_pod_owner.go:384-452 | an owner gets the request mark only if it is given up by the selection over the current owners, at least the desired number of which run |
| `SyncResults.GivenUpAreMarked` | controllers/runner_pod_owner.go:403-452 | conversely, with healthy writes a scale-down leaves every owner that the selection gives up marked |
| `SyncResults.MarksTheOldest` | controllers/runner_pod_owner.go:291-452 | a synchronisation that marks an owner with a running pod leaves exactly the desired number of running pods, none of an older owner |
| `SyncResults.StoppedOwnerGoes` | controllers/runner_pod_owner.go:576-588 | a sweep that reaches an owner all of whose pods are over deletes it, marked or not |
| `SyncResults.OutdatedOwnerGoes` | controllers/runner_pod_owner.go:463-478 | with nothing to create or mark, an owner of another template is deleted if there is one |
| `Handshake.HandshakeEnds` | controllers/runner_pod_owner.go:421-563 | in any run in which marked owners' pods are marked, as many settling reconciles of unsafe pods under the finalizer and full sweeps as a marked owner has unsafe pods, and two more, start its deletion |
| `Handshake.SweepIsThere` | controllers/runner_pod_owner.go:522-563 | once all pods of a marked owner are safe, some sweep moves it on |
| `Handshake.ReconcileIsThere` | controllers/runner_graceful_stop.go:72-223 | an unsafe pod of a marked owner, under the finalizer and of known ID, whose runner GitHub has no job on can be completed by some reconcile |
| `Termination.RunIsSafe` | controllers/constants.go:28-33 | the safety facts hold in every state of every run |
| `Termination.NoJobIsInterrupted` | controllers/runner_pod_owner.go:421-588 | once ARC starts to delete an owner of the desired template, no runner of it executes a job in that or any later state |
| `Termination.DoomedForever` | controllers/runner_graceful_stop.go:72-223 | an owner being deleted over dead runners stays so until it is gone, in every run |
| `Termination.PhasesOverRuns` | controllers/runner_pod_owner.go:433-563 | pod phases in order, and an owner complete only over pods complete or being deleted, in every state of every run |
| `Termination.MarkedOwnersAskAll` | controllers/runner_pod_owner.go:433-449 | in every state of every run from an empty start every pod of a marked owner carries the request mark |
| `Termination.FinalizerLeavesUnregisteredPod` | controllers/runner_pod_controller.go:108-134 | of all steps only a reconcile of a deleted, completed pod takes ARC's finalizer off |
| `Termination.ForcedIsGone` | controllers/runner_pod_controller.go:136-165 | a forced deletion only hits pods that the API server may remove anyway, so the run theorems cover it |
| `Termination.AskedOnceOverRuns` | controllers/runner_graceful_stop.go:97-195 | with healthy patches an ephemeral runner gets at most one decided RemoveRunner call over a whole run |
| `ReplicaBound.CreationFillsTheGap` | controllers/runner_pod_owner.go:333-383 | a synchronisation that creates owners leaves no more live ones than desired |
| `ReplicaBound.NeverTooManyRunners` | controllers/runner_pod_owner.go:333-596 | from an empty start the live, not completed owners never outnumber the desired replicas |
| `ReplicaBound.NoCreationWithinDelay` | controllers/runner_pod_owner.go:333-383 | while a live owner that the sweep will not complete was synced after the effective time, no owner is created before the recreation delay has passed |
| `StatusReport.StatusOf` | controllers/runnerreplicaset_controller.go:138-152 | published replicas are all pods of the current owners, ready and available ones their running pods |
| `StatusReport.ZeroReport` | controllers/runner_pod_owner.go:480-600 | when no pod is reported every listed owner is on its way out or has no pod |
| `StatusReport.PublishedZeroMeansIdle` | controllers/runnerreplicaset_controller.go:67-73 | in every run of a replica set, right after a report of zero none of its runners executes a job |
| `StatusReport.DrainedStaysIdle` | controllers/runnerreplicaset_controller.go:67-73 | from a report of zero on, while every synchronisation wants nothing, none of its runners executes a job in any later state |
| `StatusReport.StaleZero` | controllers/runner_pod_owner.go:365-383 | for every positive count: after a report of zero a runner can be created and busy while nothing is reported |
| `StatusReport.RevivedIff` | controllers/runnerreplicaset_controller.go:67-73 | a set can be busy after a report of zero and none since if and only if something may be wanted of it again |
| `Removal.DrainedIsIdle` | controllers/runnerreplicaset_controller.go:67-73 | in every history of a set, with its desired count, runners and status together: once zero is reported since nothing is wanted, no runner of it executes a job |
| `Removal.BusyHistory` | controllers/runner_pod_owner.go:365-383 | for an unset or zero status and any desired count, a history in which the set was not drained and a runner is busy |
| `Removal.RemovalIsGracefulIff` | controllers/runnerdeployment_controller.go:226-261 | an old set that a reconcile deletes is idle in all its histories if and only if its zero was reported since nothing is wanted of it |
| `Rollout.OldSetsFate` | controllers/runnerdeployment_controller.go:196-262 | an old set is drained if in use, deleted if empty or left alone, and touched only under a fully ready newest set of the wanted hash, selector and count |
| `Rollout.DeletionIgnoresDraining` | controllers/runnerdeployment_controller.go:196-262 | every reconcile whose writes succeed deletes an old set if and only if the newest is the wanted one and ready and the old one's published replicas are zero or unset, drained or not |
| `Rollout.NewestStays` | controllers/runnerdeployment_controller.go:114-262 | the newest set is never deleted and keeps its hash |
| `Rollout.EffectiveTimeNeedsAnotherChange` | controllers/runnerdeployment_controller.go:152-194 | a new effective time reaches the newest set if and only if its selector or count changes too |
| `Rollout.QuietIffConverged` | controllers/runnerdeployment_controller.go:114-262 | once the runners have followed, a reconcile writes no set if and only if the rollout is complete or the newest set lacks its hash label |
| `Rollout.ConvergedIsStable` | controllers/runnerdeployment_controller.go:264-310 | a complete rollout gets no further set write, and a patched status is not patched again |
| `Rollout.TotalsAdd` | controllers/runnerdeployment_controller.go:264-284 | each set counts in the status with the replicas and the available replicas it has published, the newest also as updated; ready are the available ones |
| `Rollout.StatusFollows` | controllers/runnerdeployment_controller.go:196-310 | with writes to spare the published status is the totals exactly when nothing is to be created or fixed and nothing is waited for; otherwise it stays |
| `Rollout.ReplyMeans` | controllers/runnerdeployment_controller.go:114-310 | a reconcile fails exactly when one more write would go to a set, is retried at once when it would go to the status, and comes again later exactly after it created a set beside others or replaced a selector |
| `RolloutRuns.ReconcileSpends` | controllers/runnerdeployment_controller.go:114-262 | where a rollout settles a reconcile keeps it so and lowers the measure by at least its number of set writes, wherever it fails |
| `RolloutRuns.RelistKeepsMeasure` | controllers/runnerdeployment_controller.go:87-101 | the measure does not depend on the order in which sets of one second are listed |
| `RolloutRuns.WritesAreBounded` | controllers/runnerdeployment_controller.go:87-262 | from every start that settles, failed writes, status changes and listings included, the set writes of a run are at most the measure of the start |
| `RolloutRuns.OldSetsOutliveUnreadiness` | controllers/runnerdeployment_controller.go:196-262 | over every run an old set stays as it is unless the newest is the wanted one with at least as many ready replicas as asked for; then it is set to zero replicas while it has published ones, and deleted while it has none |
| `RolloutRuns.TemplatesOverRuns` | controllers/runnerdeployment_controller.go:114-152 | if every set of the wanted hash at the start has the deployment's template, so has every one in every later state |
| `RolloutRuns.CreatedAsAsked` | controllers/runnerdeployment_controller.go:421-460 | a step that adds a set adds exactly one, with the deployment's hash, selector, template, count and effective time, and no status |
| `RolloutRuns.RolloutConverges` | controllers/runnerdeployment_controller.go:87-262 | from every start that settles, more fair reconciles than its measure leave exactly one set, of the wanted hash, selector and count, and of the deployment's template if the sets of that hash had it at the start |
| `RolloutTies.NeverSettles` | controllers/runnerdeployment_controller.go:87-262 | from every other start and for every n, a run with at least n fair reconciles that has not converged |
| `RolloutTies.EndsIffSettles` | controllers/runnerdeployment_controller.go:87-262 | the fair reconciles of all runs from a start are bounded before convergence if and only if the start settles, with and without creations in the newest set's second |
| `RolloutController.SortNewestFirst` | controllers/runnerdeployment_controller.go:87-91 | newest first and a permutation, nothing about sets of the same second |
| `RolloutController.SumStatus` | controllers/runnerdeployment_controller.go:264-284 | totals of published and available replicas |
| `RolloutController.RolloutWorld.CleanUpOld` | controllers/runnerdeployment_controller.go:226-261 | refines the loop over the old sets, up to the first failed write |
| `RolloutController.RolloutWorld.PatchStatus` | controllers/runnerdeployment_controller.go:264-310 | publishes the totals unless they are published already; a failed patch asks to be requeued |
| `RolloutController.RolloutWorld.Reconcile` | controllers/runnerdeployment_controller.go:68-311 | refines the whole reconcile for any listing, whatever order the sort gives to sets of the same second |
| `Reservations.GetValidCapacityReservations` | controllers/horizontal_runner_autoscaler_webhook.go:830-842 | exactly the reservations not yet expired, in order |
| `Reservations.CancelReservation` | controllers/horizontal_runner_autoscaler_webhook.go:795-809 | the list without the first reservation that the amount cancels |
| `Reservations.CancelRemovesOne` | controllers/horizontal_runner_autoscaler_webhook.go:795-809 | a completion removes exactly one reservation or none |
| `Reservations.ArrivalAddsItsAmount` | controllers/horizontal_runner_autoscaler_webhook.go:773-828 | from an arrival on, until its stored expiry, the reserved capacity is what it would have been plus the amount in the webhook, or one if it names none |
| `Reservations.CompletionReleasesItsAmount` | controllers/horizontal_runner_autoscaler_webhook.go:780-809 | from a completion on, its amount is missing for as long as the first active reservation of exactly that size would have lasted; without one nothing changes |
| `Reservations.SumReserved` | controllers/horizontalrunnerautoscaler_controller.go:478-484 | the replicas reserved now |
| `Reservations.PruningIsUnobservable` | controllers/horizontal_runner_autoscaler_webhook.go:773-842 | after any webhooks the pruned ledger reserves as much and cancels the same entry as one that never forgets |
| `Autoscaler.Reconciler.TryScale` | controllers/horizontal_runner_autoscaler_webhook.go:773-828 | appends a reservation or cancels one, on the pruned ledger |
| `Autoscaler.Reconciler.ComputeReplicasWithCache` | controllers/horizontalrunnerautoscaler_controller.go:464-548 | the clamped count, held back while the scale-down delay runs |
| `Autoscaler.Reconciler.UpdateTarget` | controllers/horizontalrunnerautoscaler_controller.go:99-134 | replicas written when they differ, effective time the latest of the reservations |
| `Autoscaler.Reconciler.Reconcile` | controllers/horizontalrunnerautoscaler_controller.go:303-370 | refines the reconcile with the minimum of the first active override |
| `Autoscaler.SuggestionCounts` | controllers/horizontalrunnerautoscaler_controller.go:464-496 | without reservations and delay the recorded count is the suggestion, or the minimum without one, brought between the bounds |
| `Autoscaler.ArrivalRaisesCount` | controllers/horizontalrunnerautoscaler_controller.go:478-522 | between the bounds a webhook raises the count that a reconcile records by exactly its amount for as long as its reservation lasts, unless the delay may be holding the count |
| `Autoscaler.CompletionLowersCount` | controllers/horizontalrunnerautoscaler_controller.go:478-522 | likewise a completion lowers it by its amount while the reservation it cancels would have lasted |
| `Autoscaler.TargetFollows` | controllers/horizontalrunnerautoscaler_controller.go:303-370 | a reconcile that fails changes nothing; otherwise the scale target asks for the recorded count, and its effective time changes only for ephemeral runners |
| `Autoscaler.ScaleOutIsStoredIff` | controllers/horizontalrunnerautoscaler_controller.go:326-336 | the scale-out time is stored exactly when the recorded count rises or the first one is above one |
| `Autoscaler.LatestOfAll` | controllers/horizontalrunnerautoscaler_controller.go:104-112 | the effective time handed on is the latest of all reservations |
| `Autoscaler.FallsIff` | controllers/horizontalrunnerautoscaler_controller.go:498-522 | while a lower count is wanted a reconcile records it if and only if the delay has passed since the stored scale-out time |
| `Autoscaler.NoFlapping` | controllers/horizontalrunnerautoscaler_controller.go:326-336 | between a rise of the recorded count, or a first count above one, and a later fall lies at least the delay, less the fraction of a second that storing drops, in every run |
| `Autoscaler.FractionIsLost` | controllers/horizontalrunnerautoscaler_controller.go:326-336 | that fraction is really lost: a fall 9.1 seconds after a rise with a delay of ten |
| `Autoscaler.NeverAboveMax` | controllers/horizontalrunnerautoscaler_controller.go:464-522 | the recorded count never exceeds the maximum |
| `Autoscaler.RecordedWithinBounds` | controllers/horizontalrunnerautoscaler_controller.go:448-522 | every recorded count lies between the minimum in force and the maximum, inside the delay too |
| `EffectiveTime.WebhookAscends` | controllers/horizontal_runner_autoscaler_webhook.go:786-809 | every webhook, of any amount and duration, keeps the ledger ascending in effective time |
| `EffectiveTime.LowersIff` | controllers/horizontal_runner_autoscaler_webhook.go:786-809 | for any amounts and durations a webhook lowers the latest effective time if and only if it is a completion that leaves some reservation but none of the newest time |
| `EffectiveTime.LosesNewestWhenStrict` | controllers/horizontal_runner_autoscaler_webhook.go:795-809 | with distinct times that is: the newest one is live and is the one cancelled while another is left, or it has expired and any is left |
| `EffectiveTime.TargetGoesBackIff` | controllers/horizontalrunnerautoscaler_controller.go:104-132 | a webhook and a reconcile on an up-to-date target turn its effective time back if and only if the webhook does that |
| `EffectiveTime.CompletionRemovesSoonest` | controllers/horizontal_runner_autoscaler_webhook.go:795-809 | with reservations of one size and duration a completion removes the active one that expires first |
| `EffectiveTime.EffectiveTimeNeverGoesBack` | controllers/horizontalrunnerautoscaler_controller.go:104-132 | in every run without such a webhook the effective time of the target never goes backwards and is never withdrawn |
| `EffectiveTime.UniformNeverGoesBack` | controllers/horizontalrunnerautoscaler_controller.go:104-132 | with webhooks of one size and duration the ledger stays ordered by time and expiration, and the effective time never goes backwards |
| `EffectiveTime.ReleaseOfTwoGoesBack` | controllers/horizontal_runner_autoscaler_webhook.go:795-809 | a release of two replicas that cancels the newest of two reservations turns it back |
| `Schedule.BetweenLists` | controllers/schedule.go:86-110 | the occurrences listed are exactly those of the rule in the window |
| `Schedule.AtMostOneActive` | controllers/schedule.go:95-107 | a window no longer than the period holds at most one occurrence |
| `Schedule.RecurringMatch` | controllers/schedule.go:72-121 | daily and weekly: an error exactly when the override is longer than its period, never the "[bug]" one; active is the occurrence containing now, upcoming the least one after now |
| `Schedule.BugBranchIffOverlap` | controllers/schedule.go:65-101 | monthly and yearly, for every calendar: the "[bug]" branch is taken if and only if the override is not too long for the coming period and two of its occurrences cover now |
| `Schedule.OverlapIffShortGap` | controllers/schedule.go:86-107 | some instant is covered twice if and only if a gap between neighbouring occurrences is shorter than the override |
| `Schedule.CalendarMatch` | controllers/schedule.go:72-121 | otherwise active is the one occurrence that contains now, and upcoming the least one after now up to one period later |
| `Schedule.FebruaryIsShort` | controllers/schedule.go:95-101 | a monthly override of 30 days takes the "[bug]" branch on the second of March |
| `Schedule.OnceMatch` | controllers/schedule.go:57-66 | an override without recurrence is active from its start up to its end, upcoming before, and never an error |
| `Schedule.UnknownFrequencies` | controllers/schedule.go:45-70 | exactly the empty frequency and the four documented ones are known |
| `Schedule.FixedPeriods` | controllers/schedule.go:45-51 | a day and a week; months and years have no fixed length |
| `Schedule.MatchScheduledOverrides` | controllers/horizontalrunnerautoscaler_controller.go:391-446 | the first active override in list order, the soonest upcoming one, an error if any schedule is bad |
| `Schedule.MinimumInForce` | controllers/horizontalrunnerautoscaler_controller.go:448-462 | the minimum of the first active override if it sets one, and else that of the spec, one when unset or negative |
| `StableOrder.StableSortIsPermutation` | controllers/runner_pod_owner.go:291-293 | a stable sort is a permutation |
| `StableOrder.StableSortUnique` | controllers/runner_pod_owner.go:291-293 | order and stability determine the result, so any stable sorting algorithm gives the same list |
| `RunnerGroups.VisibleRunnerGroups.Search` | simulator/runnergroups.go:144-164 | the binary search finds the insertion point after all equals |
| `RunnerGroups.VisibleRunnerGroups.Add` | simulator/runnergroups.go:144-177 | after any additions the list is the stable sort of the added groups |
| `RunnerGroups.VisibleRunnerGroups.Includes` | simulator/runnergroups.go:132-139 | membership |
| `RunnerGroups.VisibleRunnerGroups.Traverse` | simulator/runnergroups.go:181-194 | ends at the first group that is not skipped |
| `RunnerGroups.TraversalStopsAtHighest` | simulator/runnergroups.go:144-194 | the group where a traversal ends has the highest precedence of those not skipped, and was added first among its equals |
| `RunnerGroups.OrderOfPrecedence` | simulator/runnergroups.go:144-164 | no custom group stands before a default one, and within a kind no enterprise group before an organization's |
| `ScaleTargets.SameStringIff` | controllers/horizontal_runner_autoscaler_webhook.go:926-936 | two keys of slash-free names have the same string if and only if they are equal, or one names an owner "enterprises" and the other an enterprise in one of two ways |
| `ScaleTargets.CollidesIff` | controllers/horizontal_runner_autoscaler_webhook.go:926-936 | for each kind of key, exactly when another key has the same string |
| `ScaleTargets.FindByKey` | controllers/horizontal_runner_autoscaler_webhook.go:334-363 | exactly the autoscalers indexed under the key |
| `ScaleTargets.ReachableIff` | controllers/horizontal_runner_autoscaler_webhook.go:464-578 | for all slash-free names the search reaches exactly the autoscalers that belong to the event and those for which a key is mistaken |
| `ScaleTargets.RepositoryTakenForEnterprise` | controllers/horizontal_runner_autoscaler_webhook.go:464-578 | repository "enterprises/e" reaches the autoscaler of enterprise "e", which does not belong to the event |
| `ScaleTargets.ReachableIffConcerned` | controllers/horizontal_runner_autoscaler_webhook.go:464-578 | where the name "enterprises" is not used so, exactly the autoscalers whose repository, organization or enterprise is the event's |
| `ScaleTargets.GetManagedRunnerGroups` | controllers/horizontal_runner_autoscaler_webhook.go:580-653 | the groups of all concerned targets in the order of the list, or a failure for an unreadable target |
| `ScaleTargets.ManagedIff` | controllers/horizontal_runner_autoscaler_webhook.go:620-651 | exactly the groups of the targets of the event's enterprise or organization, leaving out those with a group and neither |
| `ScaleTargets.SearchGroups` | controllers/horizontal_runner_autoscaler_webhook.go:521-577 | a hit comes from the managed group of highest precedence whose lookup yields anything; a miss means that none does, or that the lookup of that group failed |
| `ScaleTargets.GetScaleUpTarget` | controllers/horizontal_runner_autoscaler_webhook.go:464-578 | the repository's autoscaler or error first, else the group of highest precedence, whose error is swallowed; a hit belongs to the event, and after a miss without errors nothing does |
| `Glob.Match` | pkg/actionsglob/actionsglob.go:8-78 | refines the scan of the tokens, with the index out of range as an outcome of its own |
| `Glob.LeftmostSuffices` | pkg/actionsglob/actionsglob.go:43-68 | after a star, taking the leftmost occurrence of a literal loses no match |
| `Glob.MatchDecides` | pkg/actionsglob/actionsglob.go:8-78 | accept, reject and fault characterised exactly for every pattern with a body and every text |
| `Glob.NoBody` | pkg/actionsglob/actionsglob.go:8-78 | the empty pattern panics and a lone '!' rejects every text |
| `Glob.AcceptIsMatch` | pkg/actionsglob/actionsglob.go:8-78 | every plain accept is a real match |
| `Glob.MatchIsAccepted` | pkg/actionsglob/actionsglob.go:8-78 | patterns without a star or ending in one accept every match |
| `Glob.MissedMatchAndFault` | pkg/actionsglob/actionsglob.go:43-68 | a repeated ending is missed and a missing literal after a star faults |
| `TokenCache.Client.GetRegistrationToken` | github/github.go:149-195 | the cached token while more than 30 minutes are left, else a new one that is stored, else an error, with the outdated token when the names do not resolve |
| `TokenCache.Client.Cleanup` | github/github.go:349-358 | exactly the expired tokens are dropped |
| `TokenCache.CleanupDropsExpired` | github/github.go:349-358 | a cached token survives a cleanup if and only if it has not expired, and unchanged |
| `TokenCache.ResolvesTo` | github/github.go:440-464 | the scope of a request: the two names around the only slash of the repository, else the organization, else the enterprise, else an error |
| `TokenCache.TokenIsReused` | github/github.go:149-195 | a granted token is granted again, whatever is asked or cleaned up in between and whatever GitHub would answer, while it has more than 30 minutes left |
| `TokenCache.RefusedWith` | github/github.go:149-195 | a request that does not resolve is refused with whatever token its key has, one that GitHub fails without |
| `TokenCache.SharesKeyIffAmbiguous` | github/github.go:454-456 | a request shares its key with another if and only if ",repo=" occurs in its organization or repository, or ",enterprise=" in its repository or enterprise |
| `TokenCache.CommaFreeIsPlain` | github/github.go:454-456 | names without commas are never ambiguous |
| `TokenCache.WronglyGrantedIff` | github/github.go:149-195 | some history gets a request a token of another scope if and only if two places of the marks in its own key make a request for another scope |
| `TokenCache.RepoMarkInOrganization` | github/github.go:149-195 | after organization "o,repo=r" asked for repository "u/v", organization "o" with repository "r,repo=u/v" is granted that token |
| `TokenCache.GrantedTokenIsRight` | github/github.go:149-195 | after any history an unambiguous request is granted a token of its own scope, new or valid for more than 30 minutes, and an error never comes with a token |
| `TokenCache.CleanupIsUnobservable` | github/github.go:349-358 | after any history every answer is as if no cleanup had run, up to the outdated token that may come with an error |
| `TokenCache.CleanupChangesNoAnswer` | github/github.go:349-358 | from an empty cache an unambiguous request is answered exactly the same |

## Left out

- HTTP handling, payload parsing, signature validation, GitHub REST calls and pagination: environment input.
- Pod template construction, token injection and the environment variables of runner containers.
- Template hashing: an abstract value, free of collisions.
- Suggestions from workflow runs and busy runners: an arbitrary value given to the autoscaler.
- Calendar arithmetic of monthly and yearly schedules and daylight saving: the occurrences and the instant one period later are inputs; daily and weekly rules are in a zone of fixed offset.
- The choice between a key lookup's several autoscalers by label and event conditions: a parameter of the search.
- Visible runner groups obtained through a GitHub client: the search is modelled without one, so its groups are those the autoscalers manage.
- The RunnerSet and Runner reconcilers apart from what the pod owner synchronisation does for them, and the summary text of scheduled overrides.
- Conflicts between concurrent writers and stale caches: every step reads the current state.
- Webhook delivery forwarders, leader election, metrics, logging, command line, Helm charts, images and scripts.
- RolloutController.RolloutWorld.Reconcile: a failure to build the desired set, a deployment being deleted and a missing deployment end the source's reconcile before any write and are not modelled.
- OwnerController.OwnerWorld.MarkForUnregistration: pods are stored back together after the loop over them, while the source patches each one at once; a failing write leaves the same pods annotated.
