/** The runner-pod controller: registration, the graceful-stop tick and the
    finalizer, as specification functions on one pod. */
module PodProtocol {
  import opened Basics
  import opened Cluster

  /** What ListRunners says about the runner of this name; it may lag behind. */
  datatype Listing = ListFailed | NotListed | Listed(id: int)

  /** Everything the outside world answers during one reconcile. `deletedFor` is the
      time since the deletion timestamp of a pod that is being deleted. */
  datatype Replies = Replies(registration: Listing, unregistration: Listing, removal: Answer, deletedFor: int)

  const DELETION_TIMEOUT := 60

  /** A pod together with the API writes that will still succeed. */
  datatype Work = Work(rp: RunnerPod, writes: nat)

  /** `ok` is false once the reconcile has to return and be retried. */
  datatype Progress = Progress(ok: bool, work: Work)

  /** Marks are never taken back and the request mark is not the pod controller's. */
  predicate MarksGrow(a: Marks, b: Marks) {
    && b.requested == a.requested
    && (a.started ==> b.started) && (a.waiting ==> b.waiting) && (a.complete ==> b.complete)
    && (!a.id.NoId? ==> b.id == a.id)
  }

  /** What no reconcile can change. */
  predicate Frame(a: RunnerPod, b: RunnerPod) {
    && b.pod.spec == a.pod.spec && b.pod.deleting == a.pod.deleting && b.pod.status == a.pod.status
    && MarksGrow(a.pod.marks, b.pod.marks)
    && b.runner.registered == a.runner.registered && b.runner.busy == a.runner.busy
    && b.runner.executing == a.runner.executing
    && (a.runner.removed ==> b.runner.removed)
  }

  /** Nor can anything that comes before the finalizer. */
  predicate Keeps(a: RunnerPod, b: RunnerPod) { Frame(a, b) && b.pod.finalizers == a.pod.finalizers }

  function Patch(w: Work, p: Pod): Progress {
    if w.writes == 0 then Progress(false, w)
    else Progress(true, Work(w.rp.(pod := p), w.writes - 1))
  }

  function AnnotateOnce(w: Work, m: Mark): (p: Progress)
    ensures m.RequestMark? || Keeps(w.rp, p.work.rp)
    ensures p.ok ==> Has(p.work.rp.pod.marks, m)
  {
    if Has(w.rp.pod.marks, m) then Progress(true, w)
    else Patch(w, w.rp.pod.(marks := With(w.rp.pod.marks, m)))
  }

  /** The effect of RemoveRunner on GitHub. */
  function Called(r: Runner, id: int, answer: Answer): Runner {
    r.(calls := r.calls + [answer],
       removed := r.removed || (answer.Removed? && r.registered == Some(id)))
  }

  /** The runner ID to unregister: the annotation, else what GitHub lists.
      The outer option is None when the lookup itself fails. */
  function UnregistrationId(recorded: RunnerId, listing: Listing): Option<Option<int>> {
    match recorded
    case Malformed => None
    case Id(n) => Some(Some(n))
    case NoId =>
      match listing
      case ListFailed => None
      case NotListed => Some(None)
      case Listed(n) => Some(Some(n))
  }

  /** A RemoveRunner call that did not succeed. */
  function AfterRefusal(w: Work, answer: Answer): (p: Progress)
    ensures Keeps(w.rp, p.work.rp)
  {
    if answer == FORBIDDEN then Progress(true, w)
    else if answer != BUSY then Progress(false, w)
    else if RunnerExit(w.rp.pod.status.containers).Some? then Progress(true, w)
    else if w.rp.pod.spec.ephemeral then Progress(false, AnnotateOnce(w, WaitMark).work)
    else Progress(false, w)
  }

  function AfterCall(w: Work, id: int, answer: Answer): (p: Progress)
    ensures Keeps(w.rp, p.work.rp)
  {
    var w' := w.(rp := w.rp.(runner := Called(w.rp.runner, id, answer)));
    if answer.Removed? then Progress(true, w') else AfterRefusal(w', answer)
  }

  function EnsureUnregistered(w: Work, listing: Listing, answer: Answer): (p: Progress)
    ensures Keeps(w.rp, p.work.rp)
  {
    var pod := w.rp.pod;
    var id := UnregistrationId(pod.marks.id, listing);
    if id.None? then Progress(false, w)
    else if pod.marks.complete || id.value.None? || Stopped(pod.status) then Progress(true, w)
    else if pod.marks.waiting then Progress(false, w)
    else AfterCall(w, id.value.value, answer)
  }

  function Tick(w: Work, listing: Listing, answer: Answer): (p: Progress)
    ensures Keeps(w.rp, p.work.rp) && (p.ok ==> p.work.rp.pod.marks.complete)
  {
    var start := AnnotateOnce(w, StartMark);
    if !start.ok then start
    else
      var gone := EnsureUnregistered(start.work, listing, answer);
      if !gone.ok then gone else AnnotateOnce(gone.work, CompleteMark)
  }

  function EnsureRegistered(w: Work, listing: Listing): (p: Progress)
    ensures Keeps(w.rp, p.work.rp)
  {
    if Stopped(w.rp.pod.status) || !w.rp.pod.marks.id.NoId? then Progress(true, w)
    else if listing.Listed? then AnnotateOnce(w, IdMark(listing.id))
    else Progress(false, w)
  }

  function Without(names: seq<string>, name: string): (r: seq<string>)
    ensures name !in r
  {
    if names == [] then []
    else (if names[0] == name then [] else [names[0]]) + Without(names[1..], name)
  }

  function ReconcileDeleted(w: Work, replies: Replies): (r: Work)
    ensures Frame(w.rp, r.rp)
  {
    var p := w.rp.pod;
    if RUNNER_POD_FINALIZER !in p.finalizers then
      if replies.deletedFor > DELETION_TIMEOUT then Patch(w, p).work else w
    else
      var t := Tick(w, replies.unregistration, replies.removal);
      if !t.ok then t.work
      else Patch(t.work, t.work.rp.pod.(finalizers := Without(p.finalizers, RUNNER_POD_FINALIZER))).work
  }

  function ReconcileLive(w: Work, replies: Replies): (r: Work)
    ensures Frame(w.rp, r.rp)
  {
    var p := w.rp.pod;
    if RUNNER_POD_FINALIZER !in p.finalizers then
      Patch(w, p.(finalizers := p.finalizers + [RUNNER_POD_FINALIZER])).work
    else
      var reg := EnsureRegistered(w, replies.registration);
      if reg.ok && reg.work.rp.pod.marks.requested
      then Tick(reg.work, replies.unregistration, replies.removal).work
      else reg.work
  }

  /** A pod of ARC's, with the environment that names its runner. */
  predicate Managed(p: Pod) { p.spec.labelled && p.spec.hasEnv }

  /** One reconcile of the pod. It touches no pod but ARC's, and on a live one of them
      its first write leaves the finalizer in place. */
  function Reconcile(w: Work, replies: Replies): (r: Work)
    ensures Frame(w.rp, r.rp) && (!Managed(w.rp.pod) ==> r == w)
    ensures Managed(w.rp.pod) && !w.rp.pod.deleting && w.writes > 0 ==> RUNNER_POD_FINALIZER in r.rp.pod.finalizers
  {
    if !w.rp.pod.spec.labelled || !w.rp.pod.spec.hasEnv then w
    else if w.rp.pod.deleting then ReconcileDeleted(w, replies)
    else ReconcileLive(w, replies)
  }

  /** A reconcile deletes the pod by force: it is stuck without ARC's finalizer. */
  predicate Forces(w: Work, replies: Replies) {
    && w.rp.pod.spec.labelled && w.rp.pod.spec.hasEnv && w.rp.pod.deleting
    && RUNNER_POD_FINALIZER !in w.rp.pod.finalizers && replies.deletedFor > DELETION_TIMEOUT && w.writes > 0
  }

  // ---- What a reconcile keeps ----

  /** Phases in order: complete only after start, start only on request or deletion. */
  predicate PhaseOrder(p: Pod) {
    (p.marks.complete ==> p.marks.started) && (p.marks.started ==> p.marks.requested || p.deleting)
  }

  /** Facts the environment guarantees: a job runs only on a registered runner that
      GitHub knows to be busy and has not removed, in a live container; and ARC's
      recorded ID is the registered one. */
  predicate Truthful(rp: RunnerPod) {
    && (rp.runner.executing ==> rp.runner.registered.Some? && rp.runner.busy && !Dead(rp))
    && (rp.pod.marks.id.Id? ==> rp.runner.registered == Some(rp.pod.marks.id.n))
  }

  /** Honest replies: a listed ID is the registered one, and GitHub removes only a
      registered runner that it does not believe to be busy. */
  predicate Honest(r: Runner, replies: Replies) {
    && (replies.registration.Listed? ==> r.registered == Some(replies.registration.id))
    && (replies.unregistration.Listed? ==> r.registered == Some(replies.unregistration.id))
    && (replies.removal.Removed? ==> r.registered.Some? && !r.busy)
  }

  lemma TickKeepsPhaseOrder(w: Work, listing: Listing, answer: Answer)
    requires PhaseOrder(w.rp.pod) && (w.rp.pod.marks.requested || w.rp.pod.deleting)
    ensures PhaseOrder(Tick(w, listing, answer).work.rp.pod)
  {
  }

  /** Every reconcile keeps the phases in order, whatever GitHub answers and
      whichever write fails. */
  lemma ReconcileKeepsPhaseOrder(w: Work, replies: Replies)
    requires PhaseOrder(w.rp.pod)
    ensures PhaseOrder(Reconcile(w, replies).rp.pod)
  {
    if w.rp.pod.deleting {
      TickKeepsPhaseOrder(w, replies.unregistration, replies.removal);
    } else {
      var reg := EnsureRegistered(w, replies.registration).work;
      if reg.rp.pod.marks.requested {
        TickKeepsPhaseOrder(reg, replies.unregistration, replies.removal);
      }
    }
  }

  /** ARC gives up its finalizer only on a pod that is being deleted and whose
      unregistration is complete. */
  lemma FinalizerOnlyAfterComplete(w: Work, replies: Replies)
    requires RUNNER_POD_FINALIZER in w.rp.pod.finalizers
    requires RUNNER_POD_FINALIZER !in Reconcile(w, replies).rp.pod.finalizers
    ensures w.rp.pod.deleting && Reconcile(w, replies).rp.pod.marks.complete
  {
  }

  lemma {:induction false} WithoutConcat(a: seq<string>, b: seq<string>, name: string)
    ensures Without(a + b, name) == Without(a, name) + Without(b, name)
  {
    if a == [] {
      assert a + b == b;
    } else {
      var first := if a[0] == name then [] else [a[0]];
      assert (a + b)[1..] == a[1..] + b && (a + b)[0] == a[0];
      WithoutConcat(a[1..], b, name);
      assert first + (Without(a[1..], name) + Without(b, name)) == first + Without(a[1..], name) + Without(b, name);
    }
  }

  lemma {:induction false} WithoutTwice(names: seq<string>, name: string)
    ensures Without(Without(names, name), name) == Without(names, name)
  {
    if names != [] {
      WithoutTwice(names[1..], name);
      var first := if names[0] == name then [] else [names[0]];
      WithoutConcat(first, Without(names[1..], name), name);
      assert first != [] ==> first[1..] == [];
    }
  }

  /** A reconcile leaves the finalizers of others alone, and their order. */
  lemma {:induction false} OtherFinalizersStay(w: Work, replies: Replies)
    ensures Without(Reconcile(w, replies).rp.pod.finalizers, RUNNER_POD_FINALIZER) ==
              Without(w.rp.pod.finalizers, RUNNER_POD_FINALIZER)
  {
    var f := w.rp.pod.finalizers;
    WithoutConcat(f, [RUNNER_POD_FINALIZER], RUNNER_POD_FINALIZER);
    WithoutTwice(f, RUNNER_POD_FINALIZER);
    assert [RUNNER_POD_FINALIZER][1..] == [];
  }

  /** Honest(r, replies) for the part of the replies that a tick consumes. */
  predicate HonestTick(r: Runner, listing: Listing, answer: Answer) {
    && (listing.Listed? ==> r.registered == Some(listing.id))
    && (answer.Removed? ==> r.registered.Some? && !r.busy)
  }

  lemma UnregisteredIsDead(w: Work, listing: Listing, answer: Answer)
    requires Truthful(w.rp) && HonestTick(w.rp.runner, listing, answer)
    ensures Truthful(EnsureUnregistered(w, listing, answer).work.rp)
    ensures EnsureUnregistered(w, listing, answer).ok && answer != FORBIDDEN ==>
      || w.rp.pod.marks.complete
      || UnregistrationId(w.rp.pod.marks.id, listing) == Some(None)
      || Dead(EnsureUnregistered(w, listing, answer).work.rp)
  {
  }

  lemma TickKeepsTruth(w: Work, listing: Listing, answer: Answer)
    requires Truthful(w.rp) && HonestTick(w.rp.runner, listing, answer)
    ensures Truthful(Tick(w, listing, answer).work.rp)
  {
    UnregisteredIsDead(AnnotateOnce(w, StartMark).work, listing, answer);
  }

  lemma ReconcileKeepsTruth(w: Work, replies: Replies)
    requires Truthful(w.rp) && Honest(w.rp.runner, replies)
    ensures Truthful(Reconcile(w, replies).rp)
  {
    if w.rp.pod.deleting {
      TickKeepsTruth(w, replies.unregistration, replies.removal);
    } else {
      var reg := EnsureRegistered(w, replies.registration).work;
      TickKeepsTruth(reg, replies.unregistration, replies.removal);
    }
  }

  /** Where unregistration is decided, the runner of a completed one is dead. */
  lemma UnregistrationKills(w: Work, listing: Listing, answer: Answer)
    requires Truthful(w.rp) && HonestTick(w.rp.runner, listing, answer) && answer != FORBIDDEN
    requires Stopped(w.rp.pod.status) || !w.rp.pod.marks.id.NoId?
    requires w.rp.pod.marks.complete ==> Dead(w.rp)
    ensures var g := EnsureUnregistered(w, listing, answer); g.ok || g.work.rp.pod.marks.complete ==> Dead(g.work.rp)
  {
    UnregisteredIsDead(w, listing, answer);
  }

  /** A tick completes only a runner that is registered or stopped: then it is dead. */
  lemma TickCompletesDead(w: Work, listing: Listing, answer: Answer)
    requires Truthful(w.rp) && HonestTick(w.rp.runner, listing, answer) && answer != FORBIDDEN
    requires Stopped(w.rp.pod.status) || !w.rp.pod.marks.id.NoId?
    requires w.rp.pod.marks.complete ==> Dead(w.rp)
    ensures Tick(w, listing, answer).work.rp.pod.marks.complete ==> Dead(Tick(w, listing, answer).work.rp)
  {
    UnregistrationKills(AnnotateOnce(w, StartMark).work, listing, answer);
  }

  /** The heart of the graceful stop: on a pod that is not being deleted, the
      complete mark is only ever set on a runner that cannot execute a job again. */
  lemma CompleteMeansDead(w: Work, replies: Replies)
    requires !w.rp.pod.deleting && Truthful(w.rp) && Honest(w.rp.runner, replies)
    requires replies.removal != FORBIDDEN
    requires w.rp.pod.marks.complete ==> Dead(w.rp)
    ensures Reconcile(w, replies).rp.pod.marks.complete ==> Dead(Reconcile(w, replies).rp)
  {
    var reg := EnsureRegistered(w, replies.registration);
    if reg.ok {
      TickCompletesDead(reg.work, replies.unregistration, replies.removal);
    }
  }

  /** The answers after which ARC takes a runner for unregistered. */
  predicate Settles(p: Pod, answer: Answer) {
    answer.Removed? || answer == FORBIDDEN || (answer == BUSY && RunnerExit(p.status.containers).Some?)
  }

  /** Everything that lets the handshake go on: the runner ID is readable, and the
      runner has stopped or GitHub gives a settling answer when asked. */
  predicate CanComplete(p: Pod, replies: Replies) {
    match p.marks.id
    case Malformed => false
    case Id(_) => Stopped(p.status) || (!p.marks.waiting && Settles(p, replies.removal))
    case NoId =>
      if Stopped(p.status) then !replies.unregistration.ListFailed?
      else replies.registration.Listed? && !p.marks.waiting && Settles(p, replies.removal)
  }

  /** A live pod under ARC's finalizer that is not yet unregistered. */
  predicate Guarded(p: Pod) {
    Managed(p) && !p.deleting && RUNNER_POD_FINALIZER in p.finalizers && !p.marks.complete
  }

  predicate Requested(p: Pod) { Guarded(p) && p.marks.requested }

  lemma UnregistersIff(w: Work, listing: Listing, answer: Answer)
    requires !w.rp.pod.marks.complete
    ensures EnsureUnregistered(w, listing, answer).ok <==>
              var p, id := w.rp.pod, UnregistrationId(w.rp.pod.marks.id, listing);
              id.Some? && (id.value.None? || Stopped(p.status) || (!p.marks.waiting && Settles(p, answer)))
    ensures w.writes > 0 && EnsureUnregistered(w, listing, answer).ok ==>
              EnsureUnregistered(w, listing, answer).work.writes > 0
    ensures EnsureUnregistered(w, listing, answer).work.rp.pod.marks.complete == w.rp.pod.marks.complete
  {
  }

  lemma TickCompletesIff(w: Work, listing: Listing, answer: Answer)
    requires !w.rp.pod.marks.complete && w.writes >= 3
    ensures Tick(w, listing, answer).work.rp.pod.marks.complete <==>
              var p, id := w.rp.pod, UnregistrationId(w.rp.pod.marks.id, listing);
              id.Some? && (id.value.None? || Stopped(p.status) || (!p.marks.waiting && Settles(p, answer)))
  {
    UnregistersIff(AnnotateOnce(w, StartMark).work, listing, answer);
  }

  /** With healthy patches one reconcile completes the unregistration of a requested
      pod exactly when it can. */
  lemma CompletesIff(w: Work, replies: Replies)
    requires Requested(w.rp.pod) && w.writes >= MAX_WRITES
    ensures Reconcile(w, replies).rp.pod.marks.complete <==> CanComplete(w.rp.pod, replies)
  {
    var reg := EnsureRegistered(w, replies.registration);
    if reg.ok {
      TickCompletesIff(reg.work, replies.unregistration, replies.removal);
    }
  }

  /** A live guarded pod gets its runner ID as soon as GitHub lists it, asked to stop or
      not, and never another one. */
  lemma RecordsId(w: Work, replies: Replies)
    requires Guarded(w.rp.pod) && w.rp.pod.marks.id.NoId? && w.writes > 0
    ensures Reconcile(w, replies).rp.pod.marks.id ==
              if replies.registration.Listed? && !Stopped(w.rp.pod.status) then Id(replies.registration.id) else NoId
  {
  }

  lemma UnregisteringWaitsIff(w: Work, listing: Listing, answer: Answer)
    requires !w.rp.pod.marks.complete && !w.rp.pod.marks.waiting && w.writes > 0
    ensures EnsureUnregistered(w, listing, answer).work.rp.pod.marks.waiting <==>
              var p, id := w.rp.pod, UnregistrationId(w.rp.pod.marks.id, listing);
              && id.Some? && id.value.Some? && !Stopped(p.status)
              && p.spec.ephemeral && answer == BUSY && RunnerExit(p.status.containers).None?
  {
  }

  lemma TickWaitsIff(w: Work, listing: Listing, answer: Answer)
    requires !w.rp.pod.marks.complete && !w.rp.pod.marks.waiting && w.writes >= 3
    ensures Tick(w, listing, answer).work.rp.pod.marks.waiting <==>
              var p, id := w.rp.pod, UnregistrationId(w.rp.pod.marks.id, listing);
              && id.Some? && id.value.Some? && !Stopped(p.status)
              && p.spec.ephemeral && answer == BUSY && RunnerExit(p.status.containers).None?
  {
    UnregisteringWaitsIff(AnnotateOnce(w, StartMark).work, listing, answer);
  }

  /** ARC comes to wait for a runner to finish exactly when it is ephemeral, not stopped,
      of known ID, and GitHub calls it busy. */
  lemma WaitsIff(w: Work, replies: Replies)
    requires Requested(w.rp.pod) && !w.rp.pod.marks.waiting && w.writes >= MAX_WRITES
    ensures Reconcile(w, replies).rp.pod.marks.waiting <==>
              var p := w.rp.pod;
              && p.spec.ephemeral && replies.removal == BUSY
              && !Stopped(p.status) && RunnerExit(p.status.containers).None?
              && (p.marks.id.Id? || (p.marks.id.NoId? && replies.registration.Listed?))
  {
    var reg := EnsureRegistered(w, replies.registration);
    if reg.ok {
      TickWaitsIff(reg.work, replies.unregistration, replies.removal);
    }
  }

  /** Without ARC's finalizer a pod being deleted is left alone for a minute; then each
      reconcile spends one write on deleting it by force. */
  lemma ForcesIff(w: Work, replies: Replies)
    requires Managed(w.rp.pod) && w.rp.pod.deleting && RUNNER_POD_FINALIZER !in w.rp.pod.finalizers
    ensures Reconcile(w, replies).rp == w.rp
    ensures Forces(w, replies) <==> replies.deletedFor > 60 && w.writes > 0
    ensures Reconcile(w, replies).writes == if Forces(w, replies) then w.writes - 1 else w.writes
  {
  }

  /** On a pod being deleted, with healthy patches, ARC gives up its finalizer exactly
      when the runner ID is readable or known to be none, and the runner is already
      unregistered, was never registered, has stopped or is settled by GitHub's answer. */
  lemma FinalizerGoesIff(w: Work, replies: Replies)
    requires Managed(w.rp.pod) && w.rp.pod.deleting && RUNNER_POD_FINALIZER in w.rp.pod.finalizers
    requires w.writes >= MAX_WRITES
    ensures RUNNER_POD_FINALIZER !in Reconcile(w, replies).rp.pod.finalizers <==>
              var p, id := w.rp.pod, UnregistrationId(w.rp.pod.marks.id, replies.unregistration);
              && id.Some?
              && (|| p.marks.complete || id.value.None? || Stopped(p.status)
                  || (!p.marks.waiting && Settles(p, replies.removal)))
  {
    if !w.rp.pod.marks.complete {
      UnregistersIff(AnnotateOnce(w, StartMark).work, replies.unregistration, replies.removal);
    }
  }

  /** What a permission error does, and no other answer: while the runner executes a
      job, a reconcile that may ask GitHub completes the unregistration exactly when
      GitHub answers 403. */
  lemma OnlyForbiddenCompletesBusyRunner(w: Work, replies: Replies)
    requires Truthful(w.rp) && Honest(w.rp.runner, replies) && w.rp.runner.executing
    requires Requested(w.rp.pod) && w.writes >= MAX_WRITES && w.rp.pod.marks.id.Id? && !w.rp.pod.marks.waiting
    ensures Reconcile(w, replies).rp.pod.marks.complete <==> replies.removal == FORBIDDEN
  {
    var reg := EnsureRegistered(w, replies.registration);
    assert reg == Progress(true, w);
    TickCompletesIff(w, replies.unregistration, replies.removal);
  }

  /** GitHub has decided: removed, busy or forbidden. Other answers are retried. */
  predicate Conclusive(a: Answer) { a.Removed? || a == BUSY || a == FORBIDDEN }

  function Conclusions(calls: seq<Answer>): nat {
    if calls == [] then 0
    else Conclusions(calls[..|calls| - 1]) + (if Conclusive(calls[|calls| - 1]) then 1 else 0)
  }

  /** At most one conclusive answer, and once there is one ARC no longer asks. */
  predicate AskedOnce(rp: RunnerPod) {
    rp.pod.spec.ephemeral ==>
      || Conclusions(rp.runner.calls) == 0
      || (Conclusions(rp.runner.calls) == 1 && (rp.pod.marks.complete || rp.pod.marks.waiting))
  }

  /** The most API writes one reconcile can make. */
  const MAX_WRITES := 4

  lemma CallsAfter(r: Runner, id: int, answer: Answer)
    ensures Conclusions(Called(r, id, answer).calls) == Conclusions(r.calls) + (if Conclusive(answer) then 1 else 0)
  {
    assert (r.calls + [answer])[..|r.calls|] == r.calls;
  }

  lemma CallSettles(w: Work, id: int, answer: Answer)
    requires w.writes >= 1 && w.rp.pod.spec.ephemeral && Conclusive(answer)
    ensures AfterCall(w, id, answer).ok || AfterCall(w, id, answer).work.rp.pod.marks.waiting
  {
  }

  lemma CallCounts(w: Work, id: int, answer: Answer)
    ensures AfterCall(w, id, answer).work.rp.runner == Called(w.rp.runner, id, answer)
  {
  }

  lemma CallAsksOnce(w: Work, id: int, answer: Answer)
    requires w.writes >= 1 && AskedOnce(w.rp) && !w.rp.pod.marks.complete && !w.rp.pod.marks.waiting
    ensures w.rp.pod.spec.ephemeral ==> Conclusions(AfterCall(w, id, answer).work.rp.runner.calls) <= 1
    ensures AfterCall(w, id, answer).ok || AskedOnce(AfterCall(w, id, answer).work.rp)
  {
    CallsAfter(w.rp.runner, id, answer);
    CallCounts(w, id, answer);
    if w.rp.pod.spec.ephemeral && Conclusive(answer) {
      CallSettles(w, id, answer);
    }
  }

  lemma UnregisteringAsksOnce(w: Work, listing: Listing, answer: Answer)
    requires w.writes >= 2 && AskedOnce(w.rp)
    ensures var g := EnsureUnregistered(w, listing, answer);
      && g.work.writes >= 1 && g.work.rp.pod.spec == w.rp.pod.spec
      && (w.rp.pod.spec.ephemeral ==> Conclusions(g.work.rp.runner.calls) <= 1)
      && (g.ok || AskedOnce(g.work.rp))
  {
    var id := UnregistrationId(w.rp.pod.marks.id, listing);
    if id.Some? && id.value.Some? && !w.rp.pod.marks.complete && !w.rp.pod.marks.waiting {
      CallAsksOnce(w, id.value.value, answer);
    }
  }

  lemma TickAsksOnce(w: Work, listing: Listing, answer: Answer)
    requires AskedOnce(w.rp) && w.writes >= 3
    ensures AskedOnce(Tick(w, listing, answer).work.rp)
  {
    UnregisteringAsksOnce(AnnotateOnce(w, StartMark).work, listing, answer);
  }

  lemma ReconcileAsksOnce(w: Work, replies: Replies)
    requires AskedOnce(w.rp) && w.writes >= MAX_WRITES
    ensures AskedOnce(Reconcile(w, replies).rp)
  {
    if w.rp.pod.deleting {
      TickAsksOnce(w, replies.unregistration, replies.removal);
    } else {
      TickAsksOnce(EnsureRegistered(w, replies.registration).work, replies.unregistration, replies.removal);
    }
  }

  lemma NoTickCallAfterComplete(w: Work, listing: Listing, answer: Answer)
    requires w.rp.pod.marks.complete
    ensures Tick(w, listing, answer).work.rp.runner == w.rp.runner
  {
  }

  /** No RemoveRunner call on a pod that carries the complete mark. */
  lemma NoCallAfterComplete(w: Work, replies: Replies)
    requires w.rp.pod.marks.complete
    ensures Reconcile(w, replies).rp.runner == w.rp.runner
  {
    if w.rp.pod.deleting {
      NoTickCallAfterComplete(w, replies.unregistration, replies.removal);
    } else {
      NoTickCallAfterComplete(EnsureRegistered(w, replies.registration).work, replies.unregistration, replies.removal);
    }
  }
}
