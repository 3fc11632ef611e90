/** The graceful stop ends: a marked owner is on its way to deletion after as many
    settling reconciles and full sweeps as it has pods, and two more. */
module Handshake {
  import opened Basics
  import opened Cluster
  import opened OwnerProtocol
  import opened OwnerSteps
  import opened Termination
  import PodProtocol

  // ---- What is still to be done ----

  /** Pods that are neither unregistered nor being deleted. */
  function Unsafe(pods: seq<RunnerPod>): nat {
    if pods == [] then 0 else Unsafe(pods[1..]) + if SafeToDelete(pods[0].pod) then 0 else 1
  }

  function Remaining(s: Server, k: nat): nat {
    if k !in s.owners || s.owners[k].deleting then 0
    else if s.owners[k].complete then 1
    else 2 + Unsafe(s.owners[k].pods)
  }

  lemma {:induction false} UnsafeUpdate(pods: seq<RunnerPod>, i: nat, rp: RunnerPod)
    requires i < |pods|
    ensures Unsafe(pods[i := rp]) + (if SafeToDelete(pods[i].pod) then 0 else 1) ==
              Unsafe(pods) + (if SafeToDelete(rp.pod) then 0 else 1)
  {
    if i == 0 {
      assert pods[0 := rp][1..] == pods[1..];
    } else {
      UnsafeUpdate(pods[1..], i - 1, rp);
      assert pods[i := rp][1..] == pods[1..][i - 1 := rp];
    }
  }

  lemma {:induction false} UnsafeRemove(pods: seq<RunnerPod>, i: nat)
    requires i < |pods|
    ensures Unsafe(pods[..i] + pods[i + 1..]) <= Unsafe(pods)
  {
    if i == 0 {
      assert pods[..0] + pods[1..] == pods[1..];
    } else {
      UnsafeRemove(pods[1..], i - 1);
      assert (pods[..i] + pods[i + 1..])[1..] == pods[1..][..i - 1] + pods[1..][i..];
    }
  }

  lemma {:induction false} UnsafeAdvances(a: seq<RunnerPod>, b: seq<RunnerPod>)
    requires |a| == |b| && forall i :: 0 <= i < |a| ==> PodAdvances(a[i], b[i])
    ensures Unsafe(a) == Unsafe(b)
  {
    if a != [] {
      assert PodAdvances(a[0], b[0]);
      UnsafeAdvances(a[1..], b[1..]);
    }
  }

  // ---- No step undoes anything ----

  /** The owner is marked, and its pods with it. */
  ghost predicate IsMarked(s: Server, k: nat) {
    AllAsked(s) && k < s.next && (k in s.owners ==> s.owners[k].requested)
  }

  lemma SyncRemaining(s: Server, order: seq<nat>, req: Request, writes: nat, k: nat)
    requires IsMarked(s, k) && Possible(s, Synchronise(order, req, writes))
    ensures var s' := After(s, Synchronise(order, req, writes));
            Remaining(s', k) <= Remaining(s, k) && (k in s'.owners ==> s'.owners[k].requested)
  {
    var s0 := s.(writesLeft := writes);
    if k in s.owners {
      SyncStep(s0, order, req, k);
      UnsafeAdvances(s.owners[k].pods, Sync(s0, order, req).server.owners[k].pods);
    } else if k in Sync(s0, order, req).server.owners {
      SyncNewOwners(s0, order, req, k);
    }
  }

  lemma ReconcileRemaining(s: Server, k: nat, i: nat, replies: PodProtocol.Replies, writes: nat)
    requires HasPod(s, k, i)
    ensures var pods := s.owners[k].pods;
            var after := Reconciled(pods[i], replies, writes);
            && Unsafe(pods[i := after]) <= Unsafe(pods)
            && (!SafeToDelete(pods[i].pod) && after.pod.marks.complete ==> Unsafe(pods[i := after]) < Unsafe(pods))
  {
    var pods := s.owners[k].pods;
    var after := Reconciled(pods[i], replies, writes);
    UnsafeUpdate(pods, i, after);
  }

  lemma StepRemaining(s: Server, a: Action, k: nat)
    requires IsMarked(s, k) && Possible(s, a)
    ensures IsMarked(After(s, a), k) && Remaining(After(s, a), k) <= Remaining(s, k)
  {
    StepKeepsNames(s, a);
    forall j | j in After(s, a).owners ensures AsksAll(After(s, a).owners[j]) {
      StepKeepsAsking(s, a, j);
    }
    match a
    case Synchronise(order, req, writes) => SyncRemaining(s, order, req, writes, k);
    case ReconcilePod(j, i, replies, writes) => ReconcileRemaining(s, j, i, replies, writes);
    case Happen(j, i, e) => UnsafeUpdate(s.owners[j].pods, i, EventAfter(s.owners[j].pods[i], e));
    case CreatePod(_, _) =>
    case PodGone(j, i) => UnsafeRemove(s.owners[j].pods, i);
    case OwnerGone(_) =>
    case ReportOwner(_, _) =>
  }

  // ---- Steps that help ----

  /** A reconcile of a pod under ARC's finalizer: its patches succeed, and the runner has
      stopped or GitHub's answer settles the matter. */
  ghost predicate SettlingReconcile(s: Server, a: Action, k: nat) {
    && a.ReconcilePod? && a.owner == k && HasPod(s, k, a.pod) && !s.owners[k].complete && !s.owners[k].deleting
    && PodProtocol.Guarded(s.owners[k].pods[a.pod].pod) && a.writes >= PodProtocol.MAX_WRITES
    && PodProtocol.CanComplete(s.owners[k].pods[a.pod].pod, a.replies)
  }

  /** A synchronisation whose sweep lists the owner and is not cut short, when the owner
      is ready for its next phase. */
  ghost predicate FullSweep(s: Server, a: Action, k: nat) {
    && a.Synchronise? && Listable(s, a.order) && Distinct(a.order) && k in a.order
    && Collect(s.(writesLeft := a.writes), a.order, a.req.now).verdict.Going?
    && !s.owners[k].deleting && (s.owners[k].complete || AllSafe(s.owners[k].pods))
  }

  ghost predicate Helps(s: Server, a: Action, k: nat) { SettlingReconcile(s, a, k) || FullSweep(s, a, k) }

  lemma SweepHelps(s: Server, a: Action, k: nat)
    requires IsMarked(s, k) && Possible(s, a) && FullSweep(s, a, k)
    ensures Remaining(After(s, a), k) < Remaining(s, k)
  {
    var s0 := s.(writesLeft := a.writes);
    assert k in s.owners;
    SweepMovesOn(s0, a.order, a.req.now, k);
    SyncAfterSweep(s0, a.order, a.req, k);
  }

  lemma ReconcileHelps(s: Server, a: Action, k: nat)
    requires IsMarked(s, k) && Possible(s, a) && SettlingReconcile(s, a, k)
    ensures Remaining(After(s, a), k) < Remaining(s, k)
  {
    var rp := s.owners[k].pods[a.pod];
    assert AsksAll(s.owners[k]);
    PodProtocol.CompletesIff(PodProtocol.Work(rp, a.writes), a.replies);
    ReconcileRemaining(s, k, a.pod, a.replies, a.writes);
  }

  /** Helpful steps among the first `n`. */
  ghost function CountHelp(states: seq<Server>, actions: seq<Action>, k: nat, n: nat): nat
    requires n <= |actions| <= |states|
  {
    if n == 0 then 0
    else CountHelp(states, actions, k, n - 1) + if Helps(states[n - 1], actions[n - 1], k) then 1 else 0
  }

  lemma {:induction false} HelpIsSpent(states: seq<Server>, actions: seq<Action>, k: nat, n: nat)
    requires Run(states, actions) && n <= |actions| && IsMarked(states[0], k)
    ensures IsMarked(states[n], k)
    ensures Remaining(states[n], k) + CountHelp(states, actions, k, n) <= Remaining(states[0], k)
  {
    if n > 0 {
      HelpIsSpent(states, actions, k, n - 1);
      var s, a := states[n - 1], actions[n - 1];
      assert StepAt(states, actions, n - 1);
      StepRemaining(s, a, k);
      if SettlingReconcile(s, a, k) {
        ReconcileHelps(s, a, k);
      } else if FullSweep(s, a, k) {
        SweepHelps(s, a, k);
      }
    }
  }

  /** The handshake ends: in any run, whatever else happens, as many helpful steps as a
      marked owner has unsafe pods and two more start its deletion. */
  lemma HandshakeEnds(states: seq<Server>, actions: seq<Action>, k: nat)
    requires Run(states, actions) && AllAsked(states[0]) && k in states[0].owners && states[0].owners[k].requested
    requires CountHelp(states, actions, k, |actions|) >= 2 + Unsafe(states[0].owners[k].pods)
    ensures k in states[|actions|].owners ==> states[|actions|].owners[k].deleting
  {
    HelpIsSpent(states, actions, k, |actions|);
  }

  /** And until then a helpful step is there to be taken, as soon as all pods are safe. */
  lemma SweepIsThere(s: Server, k: nat, req: Request) returns (a: Action)
    requires k in s.owners && s.owners[k].requested && !s.owners[k].deleting
    requires s.owners[k].hash.Some? && s.owners[k].hash.value != ""
    requires s.owners[k].complete || AllSafe(s.owners[k].pods)
    ensures Possible(s, a) && Helps(s, a, k)
  {
    a := Synchronise([k], req, 1);
    var s0 := s.(writesLeft := 1);
    assert [k][..0] == [];
    assert Collect(s0, [k], req.now) == Visit(Sweep(s0, [], None, Going), k, req.now);
  }

  /** Or, for a pod whose ID is known, as soon as GitHub has no job on its runner. */
  lemma ReconcileIsThere(s: Server, k: nat, i: nat) returns (a: Action)
    requires HasPod(s, k, i) && !s.owners[k].complete && !s.owners[k].deleting
    requires var rp := s.owners[k].pods[i];
             && PodProtocol.Guarded(rp.pod) && rp.pod.marks.id.Id? && !rp.pod.marks.waiting
             && rp.runner.registered.Some? && !rp.runner.busy
    ensures Possible(s, a) && Helps(s, a, k)
  {
    a := ReconcilePod(k, i, PodProtocol.Replies(PodProtocol.NotListed, PodProtocol.NotListed, Removed, 0),
                      PodProtocol.MAX_WRITES);
  }
}
