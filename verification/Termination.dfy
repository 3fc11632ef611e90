/** Whole runs of the graceful termination protocol: the owner controller, the pod
    controller, GitHub and the kubelet take steps in any order. */
module Termination {
  import opened Basics
  import opened Cluster
  import opened OwnerProtocol
  import opened OwnerSteps
  import PodProtocol

  /** What happens to a pod or its runner outside ARC. */
  datatype Event =
    | Register(id: int)
    | AssignJob
    | FinishJob
    | ForgetJob                       // GitHub gives up on a job whose runner is gone
    | Leave                           // an ephemeral runner unregisters itself
    | KubeletReport(status: PodStatus)
    | CascadeDelete                   // Kubernetes deletes the pods of a deleted owner
    | OutsideDelete                   // anyone else deletes the pod

  /** One step of the system. `writes` API writes succeed before one fails. */
  datatype Action =
    | Synchronise(order: seq<nat>, req: Request, writes: nat)
    | ReconcilePod(owner: nat, pod: nat, replies: PodProtocol.Replies, writes: nat)
    | Happen(owner: nat, pod: nat, event: Event)
    | CreatePod(owner: nat, spec: PodSpec)
    | PodGone(owner: nat, pod: nat)
    | OwnerGone(owner: nat)
    | ReportOwner(owner: nat, status: OwnerStatus)

  predicate EventPossible(o: Owner, rp: RunnerPod, e: Event) {
    match e
    case Register(_) => rp.runner.registered.None? && !Dead(rp)
    case AssignJob => rp.runner.registered.Some? && !rp.runner.busy && !Dead(rp)
    case FinishJob => rp.runner.executing
    case ForgetJob => !rp.runner.executing
    case Leave => !rp.runner.executing
    case KubeletReport(status) => Ended(rp.pod.status) ==> Ended(status)
    case CascadeDelete => o.deleting
    case OutsideDelete => true
  }

  function EventAfter(rp: RunnerPod, e: Event): RunnerPod {
    match e
    case Register(id) => rp.(runner := rp.runner.(registered := Some(id)))
    case AssignJob => rp.(runner := rp.runner.(busy := true, executing := true))
    case FinishJob => rp.(runner := rp.runner.(busy := false, executing := false))
    case ForgetJob => rp.(runner := rp.runner.(busy := false))
    case Leave => rp.(runner := rp.runner.(removed := true))
    case KubeletReport(status) =>
      RunnerPod(rp.pod.(status := status), rp.runner.(executing := rp.runner.executing && !Ended(status)))
    case CascadeDelete => rp.(pod := rp.pod.(deleting := true))
    case OutsideDelete => rp.(pod := rp.pod.(deleting := true))
  }

  predicate HasPod(s: Server, k: nat, i: nat) {
    k in s.owners && i < |s.owners[k].pods|
  }

  /** Replies are honest, an owner gains no pod once marked or deleted, and a pod
      disappears only after ARC's finalizer is gone. */
  ghost predicate Possible(s: Server, a: Action) {
    match a
    case Synchronise(order, _, _) => Listable(s, order)
    case ReconcilePod(k, i, replies, _) => HasPod(s, k, i) && PodProtocol.Honest(s.owners[k].pods[i].runner, replies)
    case Happen(k, i, e) => HasPod(s, k, i) && EventPossible(s.owners[k], s.owners[k].pods[i], e)
    case CreatePod(k, _) => k in s.owners && !s.owners[k].requested && !s.owners[k].complete && !s.owners[k].deleting
    case PodGone(k, i) =>
      HasPod(s, k, i) && s.owners[k].pods[i].pod.deleting && RUNNER_POD_FINALIZER !in s.owners[k].pods[i].pod.finalizers
    case OwnerGone(k) => k in s.owners && s.owners[k].deleting && s.owners[k].pods == []
    case ReportOwner(k, _) => k in s.owners
  }

  function WithPods(s: Server, k: nat, pods: seq<RunnerPod>): Server
    requires k in s.owners
  {
    s.(owners := s.owners[k := s.owners[k].(pods := pods)])
  }

  function Reconciled(rp: RunnerPod, replies: PodProtocol.Replies, writes: nat): RunnerPod {
    PodProtocol.Reconcile(PodProtocol.Work(rp, writes), replies).rp
  }

  function After(s: Server, a: Action): Server
    requires Possible(s, a)
  {
    match a
    case Synchronise(order, req, writes) => Sync(s.(writesLeft := writes), order, req).server
    case ReconcilePod(k, i, replies, writes) =>
      WithPods(s, k, s.owners[k].pods[i := Reconciled(s.owners[k].pods[i], replies, writes)])
    case Happen(k, i, e) => WithPods(s, k, s.owners[k].pods[i := EventAfter(s.owners[k].pods[i], e)])
    case CreatePod(k, spec) => WithPods(s, k, s.owners[k].pods + [RunnerPod(FreshPod(spec), FRESH_RUNNER)])
    case PodGone(k, i) => WithPods(s, k, s.owners[k].pods[..i] + s.owners[k].pods[i + 1..])
    case OwnerGone(k) => s.(owners := s.owners - {k})
    case ReportOwner(k, status) => s.(owners := s.owners[k := s.owners[k].(status := status)])
  }

  /** The steps under which ARC promises not to interrupt a job. */
  predicate Quiet(a: Action) {
    match a
    case ReconcilePod(_, _, replies, _) => replies.removal != FORBIDDEN
    case Happen(_, _, e) => !e.OutsideDelete?
    case _ => true
  }

  /** No annotation patch fails. */
  predicate HealthyPatches(a: Action) {
    a.ReconcilePod? ==> a.writes >= PodProtocol.MAX_WRITES
  }

  // ---- Owners that a step creates ----

  lemma {:induction false} CreateGrowsNext(s: Server, n: nat, o: Owner)
    ensures s.next <= CreateOwners(s, n, o).next
    decreases n
  {
    if n > 0 && s.writesLeft > 0 {
      CreateGrowsNext(Server(s.owners[s.next := o], s.next + 1, s.writesLeft - 1), n - 1, o);
    }
  }

  lemma {:induction false} CreatedOwners(s: Server, n: nat, o: Owner, k: nat)
    requires k in CreateOwners(s, n, o).owners && k !in s.owners
    ensures CreateOwners(s, n, o).owners[k] == o && s.next <= k < CreateOwners(s, n, o).next
    decreases n
  {
    if n > 0 && s.writesLeft > 0 {
      var s' := Server(s.owners[s.next := o], s.next + 1, s.writesLeft - 1);
      if k == s.next {
        CreateKeepsOwners(s', n - 1, o, k);
        CreateGrowsNext(s', n - 1, o);
      } else {
        CreatedOwners(s', n - 1, o, k);
      }
    }
  }

  lemma SyncNewOwners(s: Server, order: seq<nat>, req: Request, k: nat)
    requires Listable(s, order) && k in Sync(s, order, req).server.owners && k !in s.owners
    ensures s.next <= k < Sync(s, order, req).server.next
    ensures req.hash.Some? && Sync(s, order, req).server.owners[k] == NewOwner(req.hash.value, req.blank, req.now)
  {
    KeptIsListed(s, order, req.now);
    var w := Collect(s, order, req.now);
    if w.verdict.Going? && req.hash.Some? {
      var plan := PlanOf(w, req.hash.value, req);
      if plan.Create? {
        CreatedOwners(w.server, plan.count, NewOwner(req.hash.value, req.blank, req.now), k);
      }
    }
  }

  lemma SyncGrowsNext(s: Server, order: seq<nat>, req: Request)
    requires Listable(s, order)
    ensures s.next <= Sync(s, order, req).server.next
  {
    KeptIsListed(s, order, req.now);
    var w := Collect(s, order, req.now);
    if w.verdict.Going? && req.hash.Some? {
      var plan := PlanOf(w, req.hash.value, req);
      if plan.Create? {
        CreateGrowsNext(w.server, plan.count, NewOwner(req.hash.value, req.blank, req.now));
      }
    }
  }

  /** Names are never reused. */
  ghost predicate Named(s: Server) {
    forall k :: k in s.owners ==> k < s.next
  }

  lemma StepKeepsNames(s: Server, a: Action)
    requires Named(s) && Possible(s, a)
    ensures Named(After(s, a)) && s.next <= After(s, a).next
  {
    if a.Synchronise? {
      var s' := s.(writesLeft := a.writes);
      SyncGrowsNext(s', a.order, a.req);
      forall k | k in After(s, a).owners ensures k < After(s, a).next {
        if k !in s.owners {
          SyncNewOwners(s', a.order, a.req, k);
        }
      }
    }
  }

  // ---- Phases ----

  ghost predicate PhasesInOrder(s: Server) {
    Named(s) && forall k :: k in s.owners ==> OwnerPhase(s.owners[k])
  }

  /** Replacing one pod by one with ordered phases that is no less deletable. */
  lemma ReplacedPodPhase(o: Owner, i: nat, rp: RunnerPod)
    requires i < |o.pods| && OwnerPhase(o) && PodProtocol.PhaseOrder(rp.pod)
    requires SafeToDelete(o.pods[i].pod) ==> SafeToDelete(rp.pod)
    ensures OwnerPhase(o.(pods := o.pods[i := rp]))
  {
    assert PodProtocol.PhaseOrder(o.pods[i].pod);
  }

  lemma EventKeepsPhase(rp: RunnerPod, e: Event)
    requires PodProtocol.PhaseOrder(rp.pod)
    ensures PodProtocol.PhaseOrder(EventAfter(rp, e).pod)
    ensures SafeToDelete(rp.pod) ==> SafeToDelete(EventAfter(rp, e).pod)
  {
  }

  lemma StepKeepsPhase(s: Server, a: Action, k: nat)
    requires PhasesInOrder(s) && Possible(s, a) && k in After(s, a).owners
    ensures OwnerPhase(After(s, a).owners[k])
  {
    match a
    case Synchronise(order, req, writes) =>
      if k in s.owners {
        SyncStep(s.(writesLeft := writes), order, req, k);
      } else {
        SyncNewOwners(s.(writesLeft := writes), order, req, k);
      }
    case ReconcilePod(j, i, replies, writes) =>
      var rp := s.owners[j].pods[i];
      assert PodProtocol.PhaseOrder(rp.pod);
      PodProtocol.ReconcileKeepsPhaseOrder(PodProtocol.Work(rp, writes), replies);
      ReplacedPodPhase(s.owners[j], i, Reconciled(rp, replies, writes));
    case Happen(j, i, e) =>
      var rp := s.owners[j].pods[i];
      EventKeepsPhase(rp, e);
      ReplacedPodPhase(s.owners[j], i, EventAfter(rp, e));
    case CreatePod(_, _) =>
    case PodGone(_, _) =>
    case OwnerGone(_) =>
    case ReportOwner(_, _) =>
  }

  // ---- Safety ----

  ghost predicate Safe(s: Server) {
    Named(s) && forall k :: k in s.owners ==> OwnerSafe(s.owners[k])
  }

  lemma ReplacedPodSafe(o: Owner, i: nat, rp: RunnerPod)
    requires i < |o.pods| && OwnerSafe(o) && PodSafe(rp, o.deleting)
    requires Dead(o.pods[i]) ==> Dead(rp)
    ensures OwnerSafe(o.(pods := o.pods[i := rp]))
  {
    assert PodSafe(o.pods[i], o.deleting);
  }

  lemma EventKeepsSafe(o: Owner, rp: RunnerPod, e: Event)
    requires PodSafe(rp, o.deleting) && EventPossible(o, rp, e) && !e.OutsideDelete?
    ensures PodSafe(EventAfter(rp, e), o.deleting)
    ensures Dead(rp) ==> Dead(EventAfter(rp, e))
  {
  }

  lemma ReconcileKeepsSafe(rp: RunnerPod, ownerDeleting: bool, replies: PodProtocol.Replies, writes: nat)
    requires PodSafe(rp, ownerDeleting) && PodProtocol.Honest(rp.runner, replies) && replies.removal != FORBIDDEN
    ensures PodSafe(Reconciled(rp, replies, writes), ownerDeleting)
    ensures Dead(rp) ==> Dead(Reconciled(rp, replies, writes))
  {
    var w := PodProtocol.Work(rp, writes);
    PodProtocol.ReconcileKeepsTruth(w, replies);
    if !rp.pod.deleting {
      PodProtocol.CompleteMeansDead(w, replies);
    }
  }

  lemma StepKeepsSafe(s: Server, a: Action, k: nat)
    requires Safe(s) && Possible(s, a) && Quiet(a) && k in After(s, a).owners
    ensures OwnerSafe(After(s, a).owners[k])
  {
    match a
    case Synchronise(order, req, writes) =>
      if k in s.owners {
        SyncStep(s.(writesLeft := writes), order, req, k);
      } else {
        SyncNewOwners(s.(writesLeft := writes), order, req, k);
      }
    case ReconcilePod(j, i, replies, writes) =>
      var rp := s.owners[j].pods[i];
      assert PodSafe(rp, s.owners[j].deleting);
      ReconcileKeepsSafe(rp, s.owners[j].deleting, replies, writes);
      ReplacedPodSafe(s.owners[j], i, Reconciled(rp, replies, writes));
    case Happen(j, i, e) =>
      var rp := s.owners[j].pods[i];
      assert PodSafe(rp, s.owners[j].deleting);
      EventKeepsSafe(s.owners[j], rp, e);
      ReplacedPodSafe(s.owners[j], i, EventAfter(rp, e));
    case CreatePod(_, _) =>
    case PodGone(_, _) =>
    case OwnerGone(_) =>
    case ReportOwner(_, _) =>
  }

  lemma StepSafe(s: Server, a: Action)
    requires Safe(s) && Possible(s, a) && Quiet(a)
    ensures Safe(After(s, a))
  {
    StepKeepsNames(s, a);
    forall k | k in After(s, a).owners ensures OwnerSafe(After(s, a).owners[k]) {
      StepKeepsSafe(s, a, k);
    }
  }

  // ---- Owners whose runners are all dead ----

  /** Deletion has started and no runner of this owner can execute a job again. */
  ghost predicate Doomed(o: Owner) { o.deleting && AllDead(o.pods) }

  ghost predicate DoomedOrGone(s: Server, k: nat) {
    k < s.next && (k in s.owners ==> Doomed(s.owners[k]))
  }

  lemma EventKeepsDead(o: Owner, rp: RunnerPod, e: Event)
    requires Dead(rp) && EventPossible(o, rp, e)
    ensures Dead(EventAfter(rp, e))
  {
  }

  /** No step brings such an owner back, whatever GitHub and the kubelet do. */
  lemma StepKeepsDoomed(s: Server, a: Action, k: nat)
    requires Named(s) && Possible(s, a) && DoomedOrGone(s, k)
    ensures DoomedOrGone(After(s, a), k)
  {
    StepKeepsNames(s, a);
    if k in After(s, a).owners {
      match a
      case Synchronise(order, req, writes) =>
        if k in s.owners {
          SyncStep(s.(writesLeft := writes), order, req, k);
          AdvancesKeepsDead(s.owners[k], After(s, a).owners[k]);
        } else {
          SyncNewOwners(s.(writesLeft := writes), order, req, k);
        }
      case ReconcilePod(_, i, replies, writes) =>
      case Happen(_, i, e) =>
        var rp := s.owners[a.owner].pods[i];
        if Dead(rp) {
          EventKeepsDead(s.owners[a.owner], rp, e);
        }
      case CreatePod(_, _) =>
      case PodGone(_, _) =>
      case OwnerGone(_) =>
      case ReportOwner(_, _) =>
    }
  }

  // ---- Request marks ----

  ghost predicate AllAsked(s: Server) {
    Named(s) && forall k :: k in s.owners ==> AsksAll(s.owners[k])
  }

  lemma StepKeepsAsking(s: Server, a: Action, k: nat)
    requires AllAsked(s) && Possible(s, a) && k in After(s, a).owners
    ensures AsksAll(After(s, a).owners[k])
  {
    match a
    case Synchronise(order, req, writes) =>
      if k in s.owners {
        SyncStep(s.(writesLeft := writes), order, req, k);
      } else {
        SyncNewOwners(s.(writesLeft := writes), order, req, k);
      }
    case ReconcilePod(_, _, _, _) =>
    case Happen(_, _, _) =>
    case CreatePod(_, _) =>
    case PodGone(_, _) =>
    case OwnerGone(_) =>
    case ReportOwner(_, _) =>
  }

  // ---- RemoveRunner calls ----

  ghost predicate OwnerAsked(o: Owner) {
    forall i :: 0 <= i < |o.pods| ==> PodProtocol.AskedOnce(o.pods[i])
  }

  ghost predicate Asked(s: Server) {
    Named(s) && forall k :: k in s.owners ==> OwnerAsked(s.owners[k])
  }

  lemma AdvancesKeepsAsked(a: Owner, b: Owner)
    requires Advances(a, b) && OwnerAsked(a)
    ensures OwnerAsked(b)
  {
    forall i | 0 <= i < |b.pods| ensures PodProtocol.AskedOnce(b.pods[i]) {
      assert PodAdvances(a.pods[i], b.pods[i]) && PodProtocol.AskedOnce(a.pods[i]);
    }
  }

  lemma EventKeepsAsked(rp: RunnerPod, e: Event)
    requires PodProtocol.AskedOnce(rp)
    ensures PodProtocol.AskedOnce(EventAfter(rp, e))
  {
  }

  lemma StepKeepsAsked(s: Server, a: Action, k: nat)
    requires Asked(s) && Possible(s, a) && HealthyPatches(a) && k in After(s, a).owners
    ensures OwnerAsked(After(s, a).owners[k])
  {
    match a
    case Synchronise(order, req, writes) =>
      if k in s.owners {
        SyncStep(s.(writesLeft := writes), order, req, k);
        AdvancesKeepsAsked(s.owners[k], After(s, a).owners[k]);
      } else {
        SyncNewOwners(s.(writesLeft := writes), order, req, k);
      }
    case ReconcilePod(j, i, replies, writes) =>
      var rp := s.owners[j].pods[i];
      assert PodProtocol.AskedOnce(rp);
      PodProtocol.ReconcileAsksOnce(PodProtocol.Work(rp, writes), replies);
    case Happen(j, i, e) =>
      EventKeepsAsked(s.owners[j].pods[i], e);
    case CreatePod(_, _) =>
    case PodGone(_, _) =>
    case OwnerGone(_) =>
    case ReportOwner(_, _) =>
  }

  // ---- Runs ----

  ghost predicate StepAt(states: seq<Server>, actions: seq<Action>, n: int)
    requires |states| == |actions| + 1 && 0 <= n < |actions|
  {
    Possible(states[n], actions[n]) && states[n + 1] == After(states[n], actions[n])
  }

  ghost predicate Run(states: seq<Server>, actions: seq<Action>) {
    |states| == |actions| + 1 && forall n :: 0 <= n < |actions| ==> StepAt(states, actions, n)
  }

  /** Before any owner exists, everything the theorems start from holds. */
  lemma EmptyStart(s: Server)
    requires s.owners == map[]
    ensures Safe(s) && PhasesInOrder(s) && Asked(s) && AllAsked(s)
  {
  }

  lemma {:induction false} RunIsSafe(states: seq<Server>, actions: seq<Action>, n: nat)
    requires Run(states, actions) && n < |states| && Safe(states[0])
    requires forall i :: 0 <= i < |actions| ==> Quiet(actions[i])
    ensures Safe(states[n])
  {
    if n > 0 {
      RunIsSafe(states, actions, n - 1);
      assert StepAt(states, actions, n - 1) && Quiet(actions[n - 1]);
      StepSafe(states[n - 1], actions[n - 1]);
    }
  }

  lemma {:induction false} DoomedForever(states: seq<Server>, actions: seq<Action>, i: nat, j: nat, k: nat)
    requires Run(states, actions) && i <= j < |states|
    requires Named(states[i]) && DoomedOrGone(states[i], k)
    ensures Named(states[j]) && DoomedOrGone(states[j], k)
    decreases j
  {
    if i < j {
      DoomedForever(states, actions, i, j - 1, k);
      assert StepAt(states, actions, j - 1);
      StepKeepsNames(states[j - 1], actions[j - 1]);
      StepKeepsDoomed(states[j - 1], actions[j - 1], k);
    }
  }

  /** ARC starts to delete owner `k` of the desired template in step `i`. */
  ghost predicate StartsDeletion(states: seq<Server>, actions: seq<Action>, i: nat, k: nat)
    requires Run(states, actions) && i < |actions|
  {
    && actions[i].Synchronise?
    && k in states[i].owners && !states[i].owners[k].deleting && states[i].owners[k].hash == actions[i].req.hash
    && k in states[i + 1].owners && states[i + 1].owners[k].deleting
  }

  /** No job is interrupted: in every run of quiet steps from a safe state, once ARC
      starts to delete an owner of the desired template none of its runners is
      executing a job, neither then nor in any later state. */
  lemma NoJobIsInterrupted(states: seq<Server>, actions: seq<Action>, i: nat, j: nat, k: nat)
    requires Run(states, actions) && Safe(states[0])
    requires forall n :: 0 <= n < |actions| ==> Quiet(actions[n])
    requires i < |actions| && StartsDeletion(states, actions, i, k)
    requires i <= j < |states| && k in states[j].owners
    ensures forall p :: 0 <= p < |states[j].owners[k].pods| ==> !states[j].owners[k].pods[p].runner.executing
  {
    RunIsSafe(states, actions, i);
    RunIsSafe(states, actions, i + 1);
    RunIsSafe(states, actions, j);
    var a := actions[i];
    assert StepAt(states, actions, i);
    SyncStep(states[i].(writesLeft := a.writes), a.order, a.req, k);
    var before, after := states[i].owners[k], states[i + 1].owners[k];
    assert OwnerStep(before, after, a.req.hash) && AllDead(after.pods);
    forall p | 0 <= p < |states[j].owners[k].pods| ensures !states[j].owners[k].pods[p].runner.executing {
      var rp := states[j].owners[k].pods[p];
      assert OwnerSafe(states[j].owners[k]) && PodSafe(rp, states[j].owners[k].deleting);
      if j == i {
        assert PodAdvances(rp, after.pods[p]);
      } else {
        DoomedForever(states, actions, i + 1, j, k);
      }
      assert Dead(rp);
    }
  }

  /** ARC's finalizer leaves a pod in no other step than a reconcile that has seen
      the unregistration complete. */
  lemma FinalizerLeavesUnregisteredPod(s: Server, a: Action, k: nat, i: nat)
    requires Named(s) && Possible(s, a) && !a.PodGone? && HasPod(s, k, i) && HasPod(After(s, a), k, i)
    requires RUNNER_POD_FINALIZER in s.owners[k].pods[i].pod.finalizers
    requires RUNNER_POD_FINALIZER !in After(s, a).owners[k].pods[i].pod.finalizers
    ensures s.owners[k].pods[i].pod.deleting && After(s, a).owners[k].pods[i].pod.marks.complete
  {
    match a
    case Synchronise(order, req, writes) =>
      SyncStep(s.(writesLeft := writes), order, req, k);
    case ReconcilePod(_, _, replies, writes) =>
      PodProtocol.FinalizerOnlyAfterComplete(PodProtocol.Work(s.owners[k].pods[i], writes), replies);
    case Happen(_, _, _) =>
    case CreatePod(_, _) =>
    case OwnerGone(_) =>
    case ReportOwner(_, _) =>
  }

  /** A forced deletion is no new kind of step: whenever a reconcile forces the deletion
      of a pod, the API server may remove that pod anyway. */
  lemma ForcedIsGone(s: Server, k: nat, i: nat, replies: PodProtocol.Replies, writes: nat)
    requires HasPod(s, k, i) && PodProtocol.Forces(PodProtocol.Work(s.owners[k].pods[i], writes), replies)
    ensures Possible(s, PodGone(k, i)) && Reconciled(s.owners[k].pods[i], replies, writes) == s.owners[k].pods[i]
  {
  }

  /** The phases stay in order in every run, outside deletions and permission errors
      included. */
  lemma {:induction false} PhasesOverRuns(states: seq<Server>, actions: seq<Action>, n: nat)
    requires Run(states, actions) && n < |states| && PhasesInOrder(states[0])
    ensures PhasesInOrder(states[n])
  {
    if n > 0 {
      var s, a := states[n - 1], actions[n - 1];
      PhasesOverRuns(states, actions, n - 1);
      assert StepAt(states, actions, n - 1);
      StepKeepsNames(s, a);
      forall k | k in After(s, a).owners ensures OwnerPhase(After(s, a).owners[k]) {
        StepKeepsPhase(s, a, k);
      }
    }
  }

  /** In every run the pods of a marked owner are all asked to unregister. */
  lemma {:induction false} MarkedOwnersAskAll(states: seq<Server>, actions: seq<Action>, n: nat)
    requires Run(states, actions) && n < |states| && AllAsked(states[0])
    ensures AllAsked(states[n])
  {
    if n > 0 {
      var s, a := states[n - 1], actions[n - 1];
      MarkedOwnersAskAll(states, actions, n - 1);
      assert StepAt(states, actions, n - 1);
      StepKeepsNames(s, a);
      forall k | k in After(s, a).owners ensures AsksAll(After(s, a).owners[k]) {
        StepKeepsAsking(s, a, k);
      }
    }
  }

  /** With healthy patches an ephemeral runner gets, over any run, at most one
      RemoveRunner call that GitHub answers with removed, busy or forbidden. */
  lemma {:induction false} AskedOnceOverRuns(states: seq<Server>, actions: seq<Action>, n: nat)
    requires Run(states, actions) && n < |states| && Asked(states[0])
    requires forall i :: 0 <= i < |actions| ==> HealthyPatches(actions[i])
    ensures Asked(states[n])
    ensures forall k: nat, i: nat :: HasPod(states[n], k, i) && states[n].owners[k].pods[i].pod.spec.ephemeral ==>
                             PodProtocol.Conclusions(states[n].owners[k].pods[i].runner.calls) <= 1
  {
    if n > 0 {
      var s, a := states[n - 1], actions[n - 1];
      AskedOnceOverRuns(states, actions, n - 1);
      assert StepAt(states, actions, n - 1) && HealthyPatches(a);
      StepKeepsNames(s, a);
      forall k | k in After(s, a).owners ensures OwnerAsked(After(s, a).owners[k]) {
        StepKeepsAsked(s, a, k);
      }
    }
    forall k: nat, i: nat | HasPod(states[n], k, i) && states[n].owners[k].pods[i].pod.spec.ephemeral
      ensures PodProtocol.Conclusions(states[n].owners[k].pods[i].runner.calls) <= 1
    {
      assert OwnerAsked(states[n].owners[k]) && PodProtocol.AskedOnce(states[n].owners[k].pods[i]);
    }
  }
}
