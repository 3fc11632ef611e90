/** The runner-pod controller as the source runs it: reads, patches and GitHub calls
    in sequence, each method proved against its function in PodProtocol. */
module PodController {
  import opened Basics
  import opened Cluster
  import opened PodProtocol

  // ---- Loops over container statuses and finalizers ----

  predicate ExitsAt(containers: seq<ContainerStatus>, i: nat) {
    i < |containers| && containers[i].name == "runner" && containers[i].exit.Some?
  }

  method RunnerContainerExitCode(containers: seq<ContainerStatus>) returns (code: Option<int>)
    ensures code == RunnerExit(containers)
    ensures code.None? ==> forall i: nat :: !ExitsAt(containers, i)
    ensures code.Some? ==>
              exists i: nat :: ExitsAt(containers, i) && containers[i].exit == code
                               && forall j :: 0 <= j < i ==> !ExitsAt(containers, j)
  {
    var i := 0;
    while i < |containers|
      invariant 0 <= i <= |containers|
      invariant forall j :: 0 <= j < i ==> !ExitsAt(containers, j)
      invariant RunnerExit(containers) == RunnerExit(containers[i..])
    {
      if containers[i].name == RUNNER_CONTAINER && containers[i].exit.Some? {
        assert ExitsAt(containers, i);
        return containers[i].exit;
      }
      assert containers[i..][1..] == containers[i + 1..];
      i := i + 1;
    }
    return None;
  }

  method RunnerPodOrContainerIsStopped(status: PodStatus) returns (stopped: bool)
    ensures stopped == Stopped(status)
  {
    stopped := status.phase.Succeeded? || status.phase.Failed?;
    if !stopped && status.phase.Running? {
      var i := 0;
      while i < |status.containers|
        invariant 0 <= i <= |status.containers|
        invariant stopped || RunnerExit(status.containers[i..]).Some? <==> RunnerExit(status.containers).Some?
      {
        if status.containers[i].name == RUNNER_CONTAINER && status.containers[i].exit.Some? {
          stopped := true;
        }
        assert status.containers[i..][1..] == status.containers[i + 1..];
        i := i + 1;
      }
    }
  }

  method AddFinalizer(finalizers: seq<string>, name: string) returns (r: seq<string>, added: bool)
    ensures added <==> name !in finalizers
    ensures r == if added then finalizers + [name] else finalizers
  {
    var exists_ := false;
    for i := 0 to |finalizers|
      invariant exists_ <==> name in finalizers[..i]
    {
      if finalizers[i] == name {
        exists_ := true;
      }
    }
    assert finalizers[..|finalizers|] == finalizers;
    if exists_ {
      return finalizers, false;
    }
    return finalizers + [name], true;
  }

  lemma {:induction false} WithoutNext(names: seq<string>, i: nat, name: string)
    requires i < |names|
    ensures Without(names[..i + 1], name) ==
              Without(names[..i], name) + if names[i] == name then [] else [names[i]]
  {
    assert names[..i + 1] == names[..i] + [names[i]] && [names[i]][1..] == [];
    WithoutConcat(names[..i], [names[i]], name);
  }

  method RemoveFinalizer(finalizers: seq<string>, name: string) returns (r: seq<string>, removed: bool)
    ensures removed <==> name in finalizers
    ensures r == Without(finalizers, name)
  {
    r, removed := [], false;
    for i := 0 to |finalizers|
      invariant removed <==> name in finalizers[..i]
      invariant r == Without(finalizers[..i], name)
    {
      WithoutNext(finalizers, i, name);
      if finalizers[i] == name {
        removed := true;
      } else {
        r := r + [finalizers[i]];
      }
    }
    assert finalizers[..|finalizers|] == finalizers;
  }

  // ---- The controller ----

  /** One runner pod as the API server and GitHub hold it, and the number of API
      writes that will still succeed. */
  class PodWorld {
    var pod: Pod
    var runner: Runner
    var writesLeft: nat

    ghost function Work(): Work
      reads this
    {
      PodProtocol.Work(RunnerPod(pod, runner), writesLeft)
    }

    constructor (rp: RunnerPod, writes: nat)
      ensures Work() == PodProtocol.Work(rp, writes)
    {
      pod, runner, writesLeft := rp.pod, rp.runner, writes;
    }

    method Patch(p: Pod) returns (ok: bool)
      modifies this
      ensures PodProtocol.Progress(ok, Work()) == PodProtocol.Patch(old(Work()), p)
    {
      ok := writesLeft > 0;
      if ok {
        pod, writesLeft := p, writesLeft - 1;
      }
    }

    method AnnotatePodOnce(m: Mark) returns (ok: bool)
      modifies this
      ensures PodProtocol.Progress(ok, Work()) == AnnotateOnce(old(Work()), m)
    {
      if Has(pod.marks, m) {
        return true;
      }
      ok := Patch(pod.(marks := With(pod.marks, m)));
    }

    /** GitHub's side of RemoveRunner. */
    method RemoveRunner(id: int, answer: Answer)
      modifies this`runner
      ensures runner == Called(old(runner), id, answer)
    {
      runner := runner.(calls := runner.calls + [answer]);
      if answer.Removed? && runner.registered == Some(id) {
        runner := runner.(removed := true);
      }
    }

    method AfterRemoveRunner(answer: Answer) returns (unregistered: bool)
      requires !answer.Removed?
      modifies this
      ensures PodProtocol.Progress(unregistered, Work()) == AfterRefusal(old(Work()), answer)
    {
      if answer == FORBIDDEN {
        return true;
      }
      var code := RunnerContainerExitCode(pod.status.containers);
      if answer == BUSY && code.Some? {
        return true;
      }
      if answer == BUSY && pod.spec.ephemeral {
        var _ := AnnotatePodOnce(WaitMark);
      }
      return false;
    }

    method EnsureRunnerUnregistration(listing: Listing, answer: Answer) returns (unregistered: bool)
      modifies this
      ensures PodProtocol.Progress(unregistered, Work()) == EnsureUnregistered(old(Work()), listing, answer)
    {
      var id: Option<int>;
      match pod.marks.id {
        case Malformed => return false;
        case Id(n) => id := Some(n);
        case NoId =>
          match listing {
            case ListFailed => return false;
            case NotListed => id := None;
            case Listed(n) => id := Some(n);
          }
      }
      if pod.marks.complete || id.None? {
        return true;
      }
      var stopped := RunnerPodOrContainerIsStopped(pod.status);
      if stopped {
        return true;
      }
      if pod.marks.waiting {
        return false;
      }
      RemoveRunner(id.value, answer);
      if answer.Removed? {
        return true;
      }
      unregistered := AfterRemoveRunner(answer);
    }

    method TickRunnerGracefulStop(listing: Listing, answer: Answer) returns (done: bool)
      modifies this
      ensures PodProtocol.Progress(done, Work()) == Tick(old(Work()), listing, answer)
    {
      done := AnnotatePodOnce(StartMark);
      if !done {
        return;
      }
      done := EnsureRunnerUnregistration(listing, answer);
      if !done {
        return;
      }
      done := AnnotatePodOnce(CompleteMark);
    }

    method EnsureRunnerPodRegistered(listing: Listing) returns (registered: bool)
      modifies this
      ensures PodProtocol.Progress(registered, Work()) == EnsureRegistered(old(Work()), listing)
    {
      var stopped := RunnerPodOrContainerIsStopped(pod.status);
      if stopped || !pod.marks.id.NoId? {
        return true;
      }
      match listing {
        case Listed(n) => registered := AnnotatePodOnce(IdMark(n));
        case _ => return false;
      }
    }

    /** One reconcile of the runner pod. */
    method Reconcile(replies: Replies) returns (forced: bool)
      modifies this
      ensures Work() == PodProtocol.Reconcile(old(Work()), replies)
      ensures forced <==> Forces(old(Work()), replies)
    {
      forced := false;
      if !pod.spec.labelled || !pod.spec.hasEnv {
        return;
      }
      if !pod.deleting {
        var finalizers, added := AddFinalizer(pod.finalizers, RUNNER_POD_FINALIZER);
        if added {
          var _ := Patch(pod.(finalizers := finalizers));
          return;
        }
      } else {
        var finalizers, removed := RemoveFinalizer(pod.finalizers, RUNNER_POD_FINALIZER);
        if removed {
          var done := TickRunnerGracefulStop(replies.unregistration, replies.removal);
          if done {
            var _ := Patch(pod.(finalizers := finalizers));
          }
        } else if replies.deletedFor > DELETION_TIMEOUT {
          forced := Patch(pod);
        }
        return;
      }
      var registered := EnsureRunnerPodRegistered(replies.registration);
      if registered && pod.marks.requested {
        var _ := TickRunnerGracefulStop(replies.unregistration, replies.removal);
      }
    }
  }
}
