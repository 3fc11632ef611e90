/** One replica set from its creation to its removal by a rollout: its desired count, its
    runners and its published status together. */
module Removal {
  import opened Basics
  import opened Cluster
  import opened Allocation
  import opened OwnerProtocol
  import opened OwnerSteps
  import opened StatusReport
  import Rollout
  import Termination

  type Action = Termination.Action

  /** `published` is the status.replicas of the set; `drained` records that zero was
      reported since nothing is wanted of it. */
  datatype ManagedSet = ManagedSet(server: Server, desired: int, published: Option<int>, drained: bool)

  /** A step of the set's controllers and runners, or a new desired count. */
  datatype Step = Serve(action: Action) | Scale(desired: int)

  /** A synchronisation asks for the desired count and lists all owners not being deleted. */
  ghost predicate Possible(s: ManagedSet, step: Step, hash: string) {
    match step
    case Scale(_) => true
    case Serve(a) =>
      && Termination.Possible(s.server, a) && OfTemplate(a, hash)
      && (a.Synchronise? ==>
            && a.req.desired == s.desired
            && forall k :: k in s.server.owners && !s.server.owners[k].deleting ==> k in a.order)
  }

  function Report(s: Server, a: Action): Option<seq<View>>
    requires Termination.Possible(s, a)
  {
    if a.Synchronise? then Sync(s.(writesLeft := a.writes), a.order, a.req).current else None
  }

  function Next(s: ManagedSet, step: Step): ManagedSet
    requires step.Serve? ==> Termination.Possible(s.server, step.action)
  {
    match step
    case Scale(desired) => s.(desired := desired, drained := s.drained && desired <= 0)
    case Serve(a) =>
      var r := Report(s.server, a);
      var served := s.(server := Termination.After(s.server, a));
      if r.None? then served
      else served.(published := Some(TotalPods(r.value)),
                   drained := s.desired <= 0 && (s.drained || TotalPods(r.value) == 0))
  }

  ghost predicate StepAt(states: seq<ManagedSet>, steps: seq<Step>, hash: string, n: int)
    requires |states| == |steps| + 1 && 0 <= n < |steps|
  {
    Possible(states[n], steps[n], hash) && states[n + 1] == Next(states[n], steps[n])
  }

  predicate New(s: ManagedSet) { s.server.owners == map[] && s.published == None && !s.drained }

  ghost predicate Run(states: seq<ManagedSet>, steps: seq<Step>, hash: string) {
    |states| == |steps| + 1 && New(states[0]) && forall n :: 0 <= n < |steps| ==> StepAt(states, steps, hash, n)
  }

  /** No runner of the set executes a job. */
  ghost predicate Idle(s: Server) {
    forall k: nat, i: nat :: Termination.HasPod(s, k, i) ==> !s.owners[k].pods[i].runner.executing
  }

  // ---- A drained set is idle ----

  ghost predicate Sound(s: ManagedSet, hash: string) {
    && Termination.Safe(s.server) && OneTemplate(s.server, hash)
    && (s.drained ==> Retired(s.server) && s.desired <= 0)
  }

  lemma ServeSafe(s: Server, a: Action, hash: string)
    requires Termination.Safe(s) && OneTemplate(s, hash) && Termination.Possible(s, a) && OfTemplate(a, hash)
    ensures Termination.Safe(Termination.After(s, a)) && OneTemplate(Termination.After(s, a), hash)
  {
    Termination.StepSafe(s, a);
    forall k | k in Termination.After(s, a).owners
      ensures var o := Termination.After(s, a).owners[k]; o.hash == Some(hash) && (o.deleting ==> AllDead(o.pods))
    {
      StepKeepsTemplate(s, a, hash, k);
    }
  }

  lemma ServeKeepsRetired(s: ManagedSet, a: Action, hash: string)
    requires Sound(s, hash) && Possible(s, Serve(a), hash)
    ensures Next(s, Serve(a)).drained ==> Retired(Next(s, Serve(a)).server)
  {
    ServeSafe(s.server, a, hash);
    if s.drained {
      StepRetired(s.server, a);
    } else {
      ReportRetired(s.server, a, hash);
    }
  }

  lemma StepKeepsSound(s: ManagedSet, step: Step, hash: string)
    requires Sound(s, hash) && Possible(s, step, hash)
    ensures Sound(Next(s, step), hash)
  {
    match step
    case Scale(_) =>
    case Serve(a) =>
      ServeSafe(s.server, a, hash);
      ServeKeepsRetired(s, a, hash);
  }

  lemma {:induction false} RunIsSound(states: seq<ManagedSet>, steps: seq<Step>, hash: string, n: nat)
    requires Run(states, steps, hash) && n < |states|
    ensures Sound(states[n], hash)
  {
    if n > 0 {
      RunIsSound(states, steps, hash, n - 1);
      assert StepAt(states, steps, hash, n - 1);
      StepKeepsSound(states[n - 1], steps[n - 1], hash);
    }
  }

  lemma RetiredIsIdle(s: ManagedSet, hash: string)
    requires Sound(s, hash) && s.drained
    ensures Idle(s.server)
  {
    forall k: nat, i: nat | Termination.HasPod(s.server, k, i) ensures !s.server.owners[k].pods[i].runner.executing {
      var o := s.server.owners[k];
      assert OwnerRetired(o) && OwnerSafe(o) && PodSafe(o.pods[i], o.deleting);
    }
  }

  // ---- Histories ----

  ghost predicate RunTo(states: seq<ManagedSet>, steps: seq<Step>, s: ManagedSet, hash: string) {
    Run(states, steps, hash) && states[|steps|] == s
  }

  ghost predicate Reachable(s: ManagedSet, hash: string) { exists states, steps :: RunTo(states, steps, s, hash) }

  lemma ReachNew(s: ManagedSet, hash: string)
    requires New(s)
    ensures Reachable(s, hash)
  {
    assert RunTo([s], [], s, hash);
  }

  lemma ReachStep(s: ManagedSet, step: Step, hash: string)
    requires Reachable(s, hash) && Possible(s, step, hash)
    ensures Reachable(Next(s, step), hash)
  {
    var states, steps :| RunTo(states, steps, s, hash);
    var more, steps' := states + [Next(s, step)], steps + [step];
    forall n | 0 <= n < |steps'| ensures StepAt(more, steps', hash, n) {
      if n < |steps| {
        assert StepAt(states, steps, hash, n);
        assert more[n] == states[n] && more[n + 1] == states[n + 1] && steps'[n] == steps[n];
      }
    }
    assert RunTo(more, steps', Next(s, step), hash);
  }

  lemma DrainedIsIdle(s: ManagedSet, hash: string)
    requires Reachable(s, hash) && s.drained
    ensures Idle(s.server)
  {
    var states, steps :| RunTo(states, steps, s, hash);
    RunIsSound(states, steps, hash, |steps|);
    RetiredIsIdle(s, hash);
  }

  // ---- A set that was not drained can be busy ----

  lemma ReachScale(s: ManagedSet, desired: int, hash: string) returns (s': ManagedSet)
    requires Reachable(s, hash)
    ensures Reachable(s', hash) && s' == Next(s, Scale(desired))
  {
    ReachStep(s, Scale(desired), hash);
    s' := Next(s, Scale(desired));
  }

  /** A step of anything but a synchronisation changes the runners alone. */
  lemma ReachServe(s: ManagedSet, a: Action, hash: string) returns (s': ManagedSet)
    requires Reachable(s, hash) && !a.Synchronise? && Termination.Possible(s.server, a) && OfTemplate(a, hash)
    ensures Reachable(s', hash) && s' == s.(server := Termination.After(s.server, a))
  {
    ReachStep(s, Serve(a), hash);
    s' := Next(s, Serve(a));
  }

  /** A new set without a status, or one that has reported zero. */
  lemma QuietStart(hash: string, published: Option<int>, server: Server) returns (s: ManagedSet)
    requires published == None || published == Some(0)
    requires server.owners == map[] && Termination.Possible(server, Request0(hash))
    requires ReportsZero(server, Request0(hash)) && Termination.After(server, Request0(hash)) == server
    ensures Reachable(s, hash) && s.server == server && s.published == published
  {
    s := ManagedSet(server, 0, None, false);
    ReachNew(s, hash);
    if published.Some? {
      ReachStep(s, Serve(Request0(hash)), hash);
      s := Next(s, Serve(Request0(hash)));
    }
  }

  lemma RunnerIsMade(s: ManagedSet, hash: string, server': Server) returns (s': ManagedSet)
    requires Reachable(s, hash) && s.server.owners == map[]
    requires Termination.Possible(s.server, RequestOne(hash, 1))
    requires Termination.After(s.server, RequestOne(hash, 1)) == server'
    requires Sync(s.server.(writesLeft := 1), [], Want(hash, 1)).current.None?
    ensures Reachable(s', hash) && s'.server == server' && s'.published == s.published && !s'.drained
  {
    var s1 := ReachScale(s, 1, hash);
    ReachStep(s1, Serve(RequestOne(hash, 1)), hash);
    s' := Next(s1, Serve(RequestOne(hash, 1)));
  }

  lemma RunnerGetsJob(s: ManagedSet, hash: string) returns (s': ManagedSet)
    requires Reachable(s, hash) && 0 in s.server.owners && s.server.owners[0] == NewOwner(hash, RunnerStatus(""), 0)
    ensures Reachable(s', hash) && s' == s.(server := s'.server) && !Idle(s'.server)
  {
    var t1, t2, t3 := RunnerWorks(s.server, 0);
    var s1 := ReachServe(s, Termination.CreatePod(0, RUNNER_SPEC), hash);
    var s2 := ReachServe(s1, Termination.Happen(0, 0, Termination.Register(7)), hash);
    s' := ReachServe(s2, Termination.Happen(0, 0, Termination.AssignJob), hash);
    assert Termination.HasPod(s'.server, 0, 0) && s'.server.owners[0].pods[0].runner.executing;
  }

  /** Whatever count is wanted of it now: a set whose status is unset or zero, and that
      was not drained, may have a busy runner. */
  lemma BusyHistory(hash: string, published: Option<int>, desired: int) returns (s: ManagedSet)
    requires published == None || published == Some(0)
    ensures Reachable(s, hash) && s.published == published && s.desired == desired && !s.drained && !Idle(s.server)
  {
    var server, server' := FirstSteps(hash, 1);
    var s1 := QuietStart(hash, published, server);
    var s2 := RunnerIsMade(s1, hash, server');
    var s3 := RunnerGetsJob(s2, hash);
    s := ReachScale(s3, desired, hash);
  }

  // ---- Removal by a rollout ----

  /** What a rollout sees of the set. */
  predicate Shows(rs: Rollout.ReplicaSet, s: ManagedSet) {
    rs.published.replicas == s.published && Rollout.OrDefault(rs.spec.replicas, 1) == s.desired
  }

  /** All histories in which the set looks like this end without a running job. */
  ghost predicate AlwaysIdle(rs: Rollout.ReplicaSet, hash: string, drained: bool) {
    forall s :: Reachable(s, hash) && Shows(rs, s) && s.drained == drained ==> Idle(s.server)
  }

  lemma IdleIffDrained(rs: Rollout.ReplicaSet, hash: string, drained: bool)
    requires rs.published.replicas == None || rs.published.replicas == Some(0)
    ensures AlwaysIdle(rs, hash, drained) <==> drained
  {
    if drained {
      forall s | Reachable(s, hash) && Shows(rs, s) && s.drained ensures Idle(s.server) {
        DrainedIsIdle(s, hash);
      }
    } else {
      var s := BusyHistory(hash, rs.published.replicas, Rollout.OrDefault(rs.spec.replicas, 1));
      assert Shows(rs, s);
    }
  }

  /** Graceful removal: an old set that a reconcile of the deployment deletes has no
      running job, whatever its history, exactly when its zero was reported since
      nothing is wanted of it. Its spec and status as the reconcile sees them do not
      tell: a drained count and a published zero may come from different times. */
  lemma RemovalIsGracefulIff(
    sets: seq<Rollout.ReplicaSet>, g: Rollout.Goal, at: Rollout.Stamp, budget: nat, k: nat, hash: string, drained: bool)
    requires Rollout.Distinct(sets) && Rollout.Avoids(sets, at.name) && 0 < k < |sets| <= budget
    requires sets[k].published.replicas.Some? ==> sets[k].published.replicas.value >= 0
    requires Rollout.Named(Rollout.Write(sets, g, at, budget).sets, sets[k].name).None?
    ensures AlwaysIdle(sets[k], hash, drained) <==> drained
  {
    Rollout.DeletionIgnoresDraining(sets, g, at, budget, k);
    IdleIffDrained(sets[k], hash, drained);
  }
}
