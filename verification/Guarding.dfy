/** ARC's finalizer guards its pods: after one reconcile, no pod disappears before its
    runner is unregistered. */
module Guarding {
  import opened Basics
  import opened Cluster
  import opened OwnerProtocol
  import opened OwnerSteps
  import opened Termination
  import PodProtocol

  /** The pod cannot go, or is unregistered. */
  predicate Kept(p: Pod) { RUNNER_POD_FINALIZER in p.finalizers || p.marks.complete }

  /** Where pod `i` of owner `k` stands after the step, if it is still there. */
  function Moved(a: Action, k: nat, i: nat): Option<nat> {
    match a
    case PodGone(j, n) => if j != k || i < n then Some(i) else if i == n then None else Some(i - 1)
    case OwnerGone(j) => if j == k then None else Some(i)
    case _ => Some(i)
  }

  /** Where the pod at `i` in state `n` stands in state `m`. */
  function Tracked(actions: seq<Action>, k: nat, i: nat, n: nat, m: nat): Option<nat>
    requires n <= m <= |actions|
  {
    if n == m then Some(i)
    else
      var j := Tracked(actions, k, i, n, m - 1);
      if j.None? then None else Moved(actions[m - 1], k, j.value)
  }

  lemma SyncKeepsPod(s: Server, a: Action, k: nat, i: nat)
    requires Named(s) && a.Synchronise? && Possible(s, a) && HasPod(s, k, i)
    ensures HasPod(After(s, a), k, i) && PodAdvances(s.owners[k].pods[i], After(s, a).owners[k].pods[i])
  {
    SyncStep(s.(writesLeft := a.writes), a.order, a.req, k);
  }

  lemma ReconcileKeepsGuard(w: PodProtocol.Work, replies: PodProtocol.Replies)
    requires Kept(w.rp.pod)
    ensures Kept(PodProtocol.Reconcile(w, replies).rp.pod)
  {
    if RUNNER_POD_FINALIZER in w.rp.pod.finalizers
       && RUNNER_POD_FINALIZER !in PodProtocol.Reconcile(w, replies).rp.pod.finalizers {
      PodProtocol.FinalizerOnlyAfterComplete(w, replies);
    }
  }

  lemma StepKeepsGuard(s: Server, a: Action, k: nat, i: nat)
    requires Named(s) && Possible(s, a) && HasPod(s, k, i) && Kept(s.owners[k].pods[i].pod)
    ensures var j := Moved(a, k, i);
            j.Some? ==> HasPod(After(s, a), k, j.value) && Kept(After(s, a).owners[k].pods[j.value].pod)
  {
    match a
    case Synchronise(_, _, _) => SyncKeepsPod(s, a, k, i);
    case ReconcilePod(j, n, replies, writes) =>
      if j == k && n == i {
        ReconcileKeepsGuard(PodProtocol.Work(s.owners[k].pods[i], writes), replies);
      }
    case Happen(_, _, _) =>
    case CreatePod(_, _) =>
    case PodGone(_, _) =>
    case OwnerGone(_) =>
    case ReportOwner(_, _) =>
  }

  lemma {:induction false} GuardStays(
    states: seq<Server>, actions: seq<Action>, k: nat, i: nat, n: nat, m: nat)
    requires Run(states, actions) && n <= m <= |actions| && Named(states[n])
    requires HasPod(states[n], k, i) && Kept(states[n].owners[k].pods[i].pod)
    ensures Named(states[m])
    ensures var j := Tracked(actions, k, i, n, m);
            j.Some? ==> HasPod(states[m], k, j.value) && Kept(states[m].owners[k].pods[j.value].pod)
  {
    if n < m {
      GuardStays(states, actions, k, i, n, m - 1);
      assert StepAt(states, actions, m - 1);
      StepKeepsNames(states[m - 1], actions[m - 1]);
      var j := Tracked(actions, k, i, n, m - 1);
      if j.Some? {
        StepKeepsGuard(states[m - 1], actions[m - 1], k, j.value);
      }
    }
  }

  lemma ReconcileGuards(s: Server, a: Action)
    requires a.ReconcilePod? && Possible(s, a) && a.writes > 0
    requires var p := s.owners[a.owner].pods[a.pod].pod; PodProtocol.Managed(p) && !p.deleting
    ensures HasPod(After(s, a), a.owner, a.pod) && Kept(After(s, a).owners[a.owner].pods[a.pod].pod)
  {
  }

  /** A reconcile of a live pod of ARC's whose write succeeds. */
  ghost predicate FirstCare(s: Server, a: Action, k: nat, i: nat) {
    && a.ReconcilePod? && a.owner == k && a.pod == i && a.writes > 0 && HasPod(s, k, i)
    && PodProtocol.Managed(s.owners[k].pods[i].pod) && !s.owners[k].pods[i].pod.deleting
  }

  /** From such a reconcile on, the pod can disappear only once its runner is
      unregistered, in every later state. */
  lemma {:induction false} GoneOnlyAfterComplete(
    states: seq<Server>, actions: seq<Action>, k: nat, i: nat, n: nat, m: nat, j: nat)
    requires Run(states, actions) && n < m <= |actions| && Named(states[n])
    requires FirstCare(states[n], actions[n], k, i) && Tracked(actions, k, i, n + 1, m) == Some(j)
    ensures HasPod(states[m], k, j)
    ensures Possible(states[m], PodGone(k, j)) ==> states[m].owners[k].pods[j].pod.marks.complete
  {
    assert StepAt(states, actions, n);
    var s, a, s' := states[n], actions[n], states[n + 1];
    StepKeepsNames(s, a);
    ReconcileGuards(s, a);
    assert HasPod(s', k, i) && Kept(s'.owners[k].pods[i].pod);
    GuardStays(states, actions, k, i, n + 1, m);
  }
}
