/** What a replica set controller publishes, and why a published zero makes the set
    safe to remove. */
module StatusReport {
  import opened Basics
  import opened Cluster
  import opened Allocation
  import opened OwnerProtocol
  import opened OwnerSteps
  import opened Termination
  import opened ReplicaBound
  import PodProtocol
  import Rollout

  function TotalPods(vs: seq<View>): nat {
    if vs == [] then 0 else vs[0].total + TotalPods(vs[1..])
  }

  /** The status of a replica set whose synchronisation reported these owners. */
  method StatusOf(current: seq<View>) returns (status: Rollout.Published)
    ensures status.replicas == Some(TotalPods(current))
    ensures status.ready == status.available == Some(RunningPods(current))
  {
    var total, available, ready := 0, 0, 0;
    for i := 0 to |current|
      invariant total + TotalPods(current[i..]) == TotalPods(current)
      invariant available + RunningPods(current[i..]) == RunningPods(current)
      invariant ready + RunningPods(current[i..]) == RunningPods(current)
    {
      assert current[i..][1..] == current[i + 1..];
      total := total + current[i].total;
      available := available + current[i].running;
      ready := ready + current[i].running;
    }
    status := Rollout.Published(Some(total), Some(ready), Some(available));
  }

  lemma {:induction false} ZeroMeansNoPods(vs: seq<View>, v: View)
    requires TotalPods(vs) == 0 && v in vs
    ensures v.total == 0
  {
    if v != vs[0] {
      ZeroMeansNoPods(vs[1..], v);
    }
  }

  // ---- What the report covers ----

  /** A kept owner is reported with all its pods. */
  ghost predicate KeptTotals(kept: seq<View>, s: Server) {
    forall v :: v in kept ==> v.id in s.owners && v.total == |s.owners[v.id].pods|
  }

  lemma {:induction false} CollectKeptTotals(s: Server, order: seq<nat>, now: int)
    requires Listable(s, order)
    ensures KeptTotals(Collect(s, order, now).kept, s)
  {
    if order != [] {
      var id := order[|order| - 1];
      assert id in s.owners;
      CollectKeptTotals(s, order[..|order| - 1], now);
      CollectStep(s, order[..|order| - 1], now, id, None);
    }
  }

  lemma {:induction false} IdSetMember(vs: seq<View>, k: nat) returns (v: View)
    requires k in IdSet(vs)
    ensures v in vs && v.id == k
  {
    if k == vs[0].id {
      v := vs[0];
    } else {
      v := IdSetMember(vs[1..], k);
    }
  }

  lemma HavingNone(vs: seq<View>, hash: string)
    requires Having(vs, hash, false) == []
    ensures forall v :: v in vs ==> v.hash == hash
  {
    forall v | v in vs ensures v.hash == hash {
      assert v !in Having(vs, hash, false);
    }
  }

  lemma RetireReports(s: Server, kept: seq<View>, current: seq<View>, hash: string, pick: nat)
    requires forall v :: v in kept ==> v.id in s.owners
    ensures var r := RetireOutdated(s, kept, current, hash, pick).current;
            r.Some? ==> Having(kept, hash, false) == [] && r == Some(current)
  {
  }

  lemma ReportedCurrent(w: Sweep, hash: string, req: Request)
    requires (forall v :: v in w.kept ==> v.id in w.server.owners) && Act(w, hash, req).current.Some?
    ensures Having(w.kept, hash, false) == [] && Act(w, hash, req).current == Some(Current(w, hash))
  {
    match PlanOf(w, hash, req)
    case MarkRedundant =>
      var m := MarkOwners(w.server, ToMark(w, hash, req.desired));
      if m.ok {
        RetireReports(m.server, w.kept, Current(w, hash), hash, req.pick);
      }
    case LeaveAsIs => RetireReports(w.server, w.kept, Current(w, hash), hash, req.pick);
    case _ =>
  }

  /** A synchronisation that reports anything reports every owner its sweep kept. */
  lemma ReportIsComplete(s: Server, order: seq<nat>, req: Request)
    requires Listable(s, order) && Sync(s, order, req).current.Some?
    ensures var w := Collect(s, order, req.now);
            w.verdict.Going? && forall v :: v in w.kept ==> v in Sync(s, order, req).current.value
  {
    var w := Collect(s, order, req.now);
    KeptIsListed(s, order, req.now);
    ReportedCurrent(w, req.hash.value, req);
    HavingNone(w.kept, req.hash.value);
    CurrentIsKept(w, req.hash.value);
  }

  /** A listed owner that is not on its way out has no pod when zero is reported. */
  lemma ZeroReport(s: Server, order: seq<nat>, req: Request, k: nat)
    requires Listable(s, order) && k in order && k < s.next
    requires Sync(s, order, req).current.Some? && TotalPods(Sync(s, order, req).current.value) == 0
    requires k in Sync(s, order, req).server.owners
    ensures var o := Sync(s, order, req).server.owners[k]; o.deleting || o.complete || o.pods == []
  {
    var w := Collect(s, order, req.now);
    ReportIsComplete(s, order, req);
    SweepAccounts(s, order, req.now, k);
    KeptIsListed(s, order, req.now);
    CollectKeptHashes(s, order, req.now);
    CollectKeptTotals(s, order, req.now);
    if k in IdSet(w.kept) {
      var v := IdSetMember(w.kept, k);
      ZeroMeansNoPods(Sync(s, order, req).current.value, v);
      SyncStep(s, order, req, k);
    } else {
      forall v | v in w.kept ensures v.id in w.server.owners && w.server.owners[v.id].hash == Some(v.hash) {
        CollectStep(s, order, req.now, v.id, req.hash);
      }
      ActStep(w, req.hash.value, req, k);
    }
  }

  // ---- Runs of one replica set ----

  /** All owners carry the set's template hash, and those being deleted are dead. */
  ghost predicate OneTemplate(s: Server, hash: string) {
    forall k :: k in s.owners ==> s.owners[k].hash == Some(hash) && (s.owners[k].deleting ==> AllDead(s.owners[k].pods))
  }

  /** Steps of the replica set of this template. */
  predicate OfTemplate(a: Action, hash: string) {
    Quiet(a) && (a.Synchronise? ==> a.req.hash == Some(hash))
  }

  lemma StepKeepsTemplate(s: Server, a: Action, hash: string, k: nat)
    requires Safe(s) && OneTemplate(s, hash) && Possible(s, a) && OfTemplate(a, hash) && k in After(s, a).owners
    ensures var o := After(s, a).owners[k]; o.hash == Some(hash) && (o.deleting ==> AllDead(o.pods))
  {
    StepKeepsNames(s, a);
    if k in s.owners && s.owners[k].deleting {
      StepKeepsDoomed(s, a, k);
    }
    if a.Synchronise? {
      if k in s.owners {
        SyncStep(s.(writesLeft := a.writes), a.order, a.req, k);
        assert OwnerSafe(s.owners[k]);
      } else {
        SyncNewOwners(s.(writesLeft := a.writes), a.order, a.req, k);
      }
    }
  }

  lemma {:induction false} RunKeepsTemplate(states: seq<Server>, actions: seq<Action>, hash: string, n: nat)
    requires SetRun(states, actions, hash) && n < |states|
    ensures Safe(states[n]) && OneTemplate(states[n], hash)
  {
    if n > 0 {
      var s, a := states[n - 1], actions[n - 1];
      RunKeepsTemplate(states, actions, hash, n - 1);
      assert OfTemplate(a, hash) && StepAt(states, actions, n - 1);
      StepSafe(s, a);
      forall k | k in After(s, a).owners
        ensures After(s, a).owners[k].hash == Some(hash) &&
                (After(s, a).owners[k].deleting ==> AllDead(After(s, a).owners[k].pods))
      {
        StepKeepsTemplate(s, a, hash, k);
      }
    }
  }

  /** A synchronisation that listed all owners not being deleted and reported no pod. */
  ghost predicate ReportsZero(s: Server, a: Action) {
    && a.Synchronise? && Listable(s, a.order)
    && (forall k :: k in s.owners && !s.owners[k].deleting ==> k in a.order)
    && var r := Sync(s.(writesLeft := a.writes), a.order, a.req).current;
       r.Some? && TotalPods(r.value) == 0
  }

  lemma ZeroReportMeansIdle(s: Server, a: Action, hash: string, k: nat, i: nat)
    requires Safe(s) && Possible(s, a) && Safe(After(s, a)) && OneTemplate(After(s, a), hash)
    ensures ReportsZero(s, a) && HasPod(After(s, a), k, i) ==> !After(s, a).owners[k].pods[i].runner.executing
  {
    if ReportsZero(s, a) && HasPod(After(s, a), k, i) {
      var s0, o := s.(writesLeft := a.writes), After(s, a).owners[k];
      assert OwnerSafe(o) && PodSafe(o.pods[i], o.deleting);
      if k !in s.owners {
        SyncNewOwners(s0, a.order, a.req, k);
      } else if !o.deleting && !o.complete {
        SyncStep(s0, a.order, a.req, k);
        ZeroReport(s0, a.order, a.req, k);
      }
    }
  }

  /** Zero is published only by an idle set: in every run of a replica set, when a
      synchronisation that listed all its owners reports no pod, none of its runners
      is executing a job. */
  lemma PublishedZeroMeansIdle(states: seq<Server>, actions: seq<Action>, hash: string, n: nat, k: nat, i: nat)
    requires SetRun(states, actions, hash) && n < |actions|
    ensures ReportsZero(states[n], actions[n]) && HasPod(states[n + 1], k, i) ==>
              !states[n + 1].owners[k].pods[i].runner.executing
  {
    RunKeepsTemplate(states, actions, hash, n);
    RunKeepsTemplate(states, actions, hash, n + 1);
    assert StepAt(states, actions, n);
    ZeroReportMeansIdle(states[n], actions[n], hash, k, i);
  }

  // ---- How long a published zero stays true ----

  /** On its way out, and without a runner that could execute a job again. */
  ghost predicate OwnerRetired(o: Owner) {
    AllDead(o.pods) && (o.requested || o.complete || o.deleting)
  }

  ghost predicate Retired(s: Server) {
    forall k :: k in s.owners ==> OwnerRetired(s.owners[k])
  }

  lemma {:induction false} MarkedAll(s: Server, ids: seq<nat>, id: nat)
    requires Listable(s, ids) && MarkOwners(s, ids).ok && id in ids
    ensures MarkOwners(s, ids).server.owners[id].requested
  {
    var last, before := ids[|ids| - 1], ids[..|ids| - 1];
    assert last in s.owners && ids == before + [last];
    if id != last {
      MarkedAll(s, before, id);
      MarkOwnerStep(MarkOwners(s, before).server, last, id, None);
    }
  }

  lemma {:induction false} NoneRetained(vs: seq<View>, i: nat)
    requires i < |vs|
    ensures GivenUp(vs, 0, i)
  {
    RetainsEnough(vs[i + 1..], 0);
  }

  /** To want nothing is to mark everything. */
  lemma {:induction false} AllToMark(w: Sweep, hash: string, v: View)
    requires (forall u :: u in w.kept ==> u.id in w.server.owners) && v in Current(w, hash)
    ensures v.id in ToMark(w, hash, 0)
  {
    var vs := Current(w, hash);
    var i :| 0 <= i < |vs| && vs[i] == v;
    NoneRetained(vs, i);
    var r := Redundant(vs, 0, 0);
    assert i in r;
    var k :| 0 <= k < |r| && r[k] == i;
    assert ToMark(w, hash, 0)[k] == vs[r[k]].id;
  }

  lemma {:induction false} NothingWanted(vs: seq<View>, req: Request, lastSync: Option<int>)
    requires req.desired <= 0
    ensures var plan := Decide(vs, req.desired, req.ephemeral, lastSync, req.effective, req.now);
            && !plan.Create? && !plan.LeaveAsIs? && (plan.MarkRedundant? ==> req.desired == 0)
  {
    RetainsEnough(vs, req.desired);
    RetainedNotNegative(vs, req.desired);
  }

  lemma {:induction false} RetainedNotNegative(vs: seq<View>, desired: int)
    ensures Retained(vs, desired) >= 0
  {
    if vs != [] {
      RetainedNotNegative(vs[1..], desired);
    }
  }

  /** A report on a request for nothing leaves every kept owner marked. */
  lemma ReportedAreMarked(s: Server, order: seq<nat>, req: Request, v: View)
    requires Listable(s, order) && req.desired <= 0 && v in Collect(s, order, req.now).kept
    ensures var r := Sync(s, order, req);
            r.current.Some? ==> v.id in r.server.owners && r.server.owners[v.id].requested
  {
    if Sync(s, order, req).current.Some? {
      var w := Collect(s, order, req.now);
      KeptIsListed(s, order, req.now);
      ReportIsComplete(s, order, req);
      var hash := req.hash.value;
      NothingWanted(Current(w, hash), req, w.lastSync);
      AllToMark(w, hash, v);
      MarkedAll(w.server, ToMark(w, hash, 0), v.id);
    }
  }

  lemma NothingIsCreated(s: Server, order: seq<nat>, req: Request, k: nat)
    requires Listable(s, order) && req.desired <= 0 && k in Sync(s, order, req).server.owners
    ensures k in s.owners
  {
    if k !in s.owners {
      SyncNewOwners(s, order, req, k);
      SyncOnlyCreates(s, order, req, k);
      var w := Collect(s, order, req.now);
      NothingWanted(Current(w, req.hash.value), req, w.lastSync);
    }
  }

  lemma ListedIsMarked(s: Server, order: seq<nat>, req: Request, k: nat)
    requires Listable(s, order) && k in order && k < s.next && req.desired <= 0
    ensures var r := Sync(s, order, req);
            r.current.Some? && k in r.server.owners ==>
              var o := r.server.owners[k]; o.deleting || o.complete || o.requested
  {
    if Sync(s, order, req).current.Some? {
      var w := Collect(s, order, req.now);
      ReportIsComplete(s, order, req);
      SweepAccounts(s, order, req.now, k);
      KeptIsListed(s, order, req.now);
      if k in IdSet(w.kept) {
        var v := IdSetMember(w.kept, k);
        ReportedAreMarked(s, order, req, v);
      } else {
        CollectKeptHashes(s, order, req.now);
        forall v | v in w.kept ensures v.id in w.server.owners && w.server.owners[v.id].hash == Some(v.hash) {
          CollectStep(s, order, req.now, v.id, req.hash);
        }
        ActStep(w, req.hash.value, req, k);
      }
    }
  }

  /** A set that reports zero when nothing is wanted of it has retired. */
  lemma ZeroReportRetires(s: Server, a: Action, hash: string, k: nat)
    requires Safe(s) && Possible(s, a) && Safe(After(s, a)) && OneTemplate(After(s, a), hash)
    requires k in After(s, a).owners
    ensures ReportsZero(s, a) && a.req.desired <= 0 ==> OwnerRetired(After(s, a).owners[k])
  {
    if ReportsZero(s, a) && a.req.desired <= 0 {
      var s0, o := s.(writesLeft := a.writes), After(s, a).owners[k];
      NothingIsCreated(s0, a.order, a.req, k);
      SyncStep(s0, a.order, a.req, k);
      assert OwnerSafe(o);
      if !o.deleting && !o.complete {
        ZeroReport(s0, a.order, a.req, k);
        ListedIsMarked(s0, a.order, a.req, k);
      }
    }
  }

  predicate WantsAtMost(a: Action, desired: int) { a.Synchronise? ==> a.req.desired <= desired }

  /** Nothing revives a retired set while nothing is wanted of it. */
  lemma StepKeepsRetired(s: Server, a: Action, k: nat)
    requires Named(s) && Retired(s) && Possible(s, a) && WantsAtMost(a, 0) && k in After(s, a).owners
    ensures OwnerRetired(After(s, a).owners[k])
  {
    match a
    case Synchronise(order, req, writes) =>
      var s0 := s.(writesLeft := writes);
      NothingIsCreated(s0, order, req, k);
      SyncStep(s0, order, req, k);
      AdvancesKeepsDead(s.owners[k], After(s, a).owners[k]);
    case ReconcilePod(j, i, replies, writes) =>
      assert OwnerRetired(s.owners[j]);
    case Happen(j, i, e) =>
      assert OwnerRetired(s.owners[j]);
      EventKeepsDead(s.owners[j], s.owners[j].pods[i], e);
    case CreatePod(_, _) =>
    case PodGone(j, _) => assert OwnerRetired(s.owners[j]);
    case OwnerGone(_) =>
    case ReportOwner(_, _) =>
  }

  lemma StepRetired(s: Server, a: Action)
    requires Named(s) && Retired(s) && Possible(s, a) && WantsAtMost(a, 0)
    ensures Retired(After(s, a))
  {
    forall k | k in After(s, a).owners ensures OwnerRetired(After(s, a).owners[k]) {
      StepKeepsRetired(s, a, k);
    }
  }

  lemma ReportRetired(s: Server, a: Action, hash: string)
    requires Safe(s) && Possible(s, a) && Safe(After(s, a)) && OneTemplate(After(s, a), hash)
    ensures ReportsZero(s, a) && a.req.desired <= 0 ==> Retired(After(s, a))
  {
    forall k | k in After(s, a).owners
      ensures ReportsZero(s, a) && a.req.desired <= 0 ==> OwnerRetired(After(s, a).owners[k])
    {
      ZeroReportRetires(s, a, hash, k);
    }
  }

  /** From step `n` on no synchronisation asks for more than this. */
  ghost predicate WantAtMost(actions: seq<Action>, n: nat, desired: int) {
    forall j :: n <= j < |actions| ==> WantsAtMost(actions[j], desired)
  }

  /** Steps of one replica set from its creation. */
  ghost predicate SetRun(states: seq<Server>, actions: seq<Action>, hash: string) {
    Run(states, actions) && states[0].owners == map[] && forall j :: 0 <= j < |actions| ==> OfTemplate(actions[j], hash)
  }

  lemma RetiredAfterReport(states: seq<Server>, actions: seq<Action>, hash: string, n: nat)
    requires SetRun(states, actions, hash) && n < |actions| && ReportsZero(states[n], actions[n])
    requires WantsAtMost(actions[n], 0)
    ensures Retired(states[n + 1])
  {
    assert StepAt(states, actions, n);
    RunKeepsTemplate(states, actions, hash, n);
    RunKeepsTemplate(states, actions, hash, n + 1);
    ReportRetired(states[n], actions[n], hash);
  }

  lemma {:induction false} RetiredForever(states: seq<Server>, actions: seq<Action>, hash: string, i: nat, j: nat)
    requires SetRun(states, actions, hash) && i <= j <= |actions| && WantAtMost(actions, i, 0) && Retired(states[i])
    ensures Retired(states[j])
    decreases j
  {
    if i < j {
      RetiredForever(states, actions, hash, i, j - 1);
      RunKeepsTemplate(states, actions, hash, j - 1);
      assert StepAt(states, actions, j - 1) && WantsAtMost(actions[j - 1], 0);
      StepRetired(states[j - 1], actions[j - 1]);
    }
  }

  /** A drained set stays idle: once a set has reported zero and nothing is wanted of
      it any more, none of its runners executes a job in any later state. */
  lemma DrainedStaysIdle(states: seq<Server>, actions: seq<Action>, hash: string, n: nat, m: nat, k: nat, i: nat)
    requires SetRun(states, actions, hash) && n < m <= |actions| && WantAtMost(actions, n, 0)
    ensures ReportsZero(states[n], actions[n]) && HasPod(states[m], k, i) ==>
              !states[m].owners[k].pods[i].runner.executing
  {
    if ReportsZero(states[n], actions[n]) && HasPod(states[m], k, i) {
      assert WantsAtMost(actions[n], 0);
      RetiredAfterReport(states, actions, hash, n);
      RetiredForever(states, actions, hash, n + 1, m);
      RunKeepsTemplate(states, actions, hash, m);
      var o := states[m].owners[k];
      assert OwnerRetired(o) && OwnerSafe(o) && PodSafe(o.pods[i], o.deleting);
    }
  }

  // ---- A zero that is no longer true ----

  function Want(hash: string, desired: int): Request {
    Request(Some(hash), RunnerStatus(""), desired, None, false, 0, 0)
  }

  lemma {:induction false} EmptySync(s: Server, hash: string, desired: nat)
    requires s.owners == map[]
    ensures var r := Sync(s, [], Want(hash, desired));
            if desired == 0 then r == Outcome(s, Some([]))
            else r == Outcome(CreateOwners(s, desired, NewOwner(hash, RunnerStatus(""), 0)), None)
  {
    var w := Collect(s, [], 0);
    assert w == Sweep(s, [], None, Going);
    assert Having([], hash, true) == [] && Current(w, hash) == [];
    assert MarkOwners(s, []) == Marked(s, true);
    assert ToMark(w, hash, 0) == [];
  }

  lemma {:induction false} OneCreated(s: Server, desired: nat, o: Owner)
    requires desired > 0 && s.writesLeft == 1
    ensures CreateOwners(s, desired, o) == Server(s.owners[s.next := o], s.next + 1, 0)
  {
    assert CreateOwners(Server(s.owners[s.next := o], s.next + 1, 0), desired - 1, o).owners == s.owners[s.next := o];
  }

  const RUNNER_SPEC := PodSpec(true, true, true)

  /** The step reports nothing. */
  ghost predicate Silent(s: Server, a: Action) {
    a.Synchronise? && Listable(s, a.order) ==> Sync(s.(writesLeft := a.writes), a.order, a.req).current.None?
  }

  /** A job runs in state `m` although zero was reported before and nothing since. */
  ghost predicate Revived(states: seq<Server>, actions: seq<Action>, hash: string, n: nat, m: nat, k: nat, i: nat,
                          desired: int)
  {
    && SetRun(states, actions, hash) && n < m <= |actions| && WantAtMost(actions, n, desired)
    && ReportsZero(states[n], actions[n]) && (forall j :: n < j < m ==> Silent(states[j], actions[j]))
    && HasPod(states[m], k, i) && states[m].owners[k].pods[i].runner.executing
  }

  /** A new runner registers and gets a job. */
  lemma RunnerWorks(s: Server, k: nat) returns (s1: Server, s2: Server, s3: Server)
    requires k in s.owners && s.owners[k].pods == []
    requires !s.owners[k].requested && !s.owners[k].complete && !s.owners[k].deleting
    ensures Possible(s, CreatePod(k, RUNNER_SPEC)) && s1 == After(s, CreatePod(k, RUNNER_SPEC))
    ensures Possible(s1, Happen(k, 0, Register(7))) && s2 == After(s1, Happen(k, 0, Register(7)))
    ensures Possible(s2, Happen(k, 0, AssignJob)) && s3 == After(s2, Happen(k, 0, AssignJob))
    ensures HasPod(s3, k, 0) && s3.owners[k].pods[0].runner.executing
  {
    s1 := After(s, CreatePod(k, RUNNER_SPEC));
    assert s1.owners[k].pods[0] == RunnerPod(FreshPod(RUNNER_SPEC), FRESH_RUNNER);
    s2 := After(s1, Happen(k, 0, Register(7)));
    s3 := After(s2, Happen(k, 0, AssignJob));
  }

  function Request0(hash: string): Action { Synchronise([], Want(hash, 0), 0) }

  function RequestOne(hash: string, desired: int): Action { Synchronise([], Want(hash, desired), 1) }

  lemma FirstSteps(hash: string, desired: nat) returns (s: Server, s': Server)
    requires desired > 0
    ensures s.owners == map[] && Possible(s, Request0(hash)) && ReportsZero(s, Request0(hash))
    ensures After(s, Request0(hash)) == s
    ensures Possible(s, RequestOne(hash, desired)) && After(s, RequestOne(hash, desired)) == s'
    ensures Sync(s.(writesLeft := 1), [], Want(hash, desired)).current.None?
    ensures 0 in s'.owners && s'.owners[0] == NewOwner(hash, RunnerStatus(""), 0)
  {
    s := Server(map[], 0, 0);
    EmptySync(s, hash, 0);
    EmptySync(s.(writesLeft := 1), hash, desired);
    OneCreated(s.(writesLeft := 1), desired, NewOwner(hash, RunnerStatus(""), 0));
    s' := After(s, RequestOne(hash, desired));
  }

  lemma FiveSteps(states: seq<Server>, actions: seq<Action>)
    requires |states| == 6 && |actions| == 5
    requires Possible(states[0], actions[0]) && states[1] == After(states[0], actions[0])
    requires Possible(states[1], actions[1]) && states[2] == After(states[1], actions[1])
    requires Possible(states[2], actions[2]) && states[3] == After(states[2], actions[2])
    requires Possible(states[3], actions[3]) && states[4] == After(states[3], actions[3])
    requires Possible(states[4], actions[4]) && states[5] == After(states[4], actions[4])
    ensures Run(states, actions)
  {
    forall n | 0 <= n < 5 ensures StepAt(states, actions, n) {
      assert n == 0 || n == 1 || n == 2 || n == 3 || n == 4;
    }
  }

  /** A runner is wanted, created and given a job. */
  function Revival(hash: string, desired: int): seq<Action> {
    [Request0(hash), RequestOne(hash, desired), CreatePod(0, RUNNER_SPEC),
     Happen(0, 0, Register(7)), Happen(0, 0, AssignJob)]
  }

  lemma RevivalOfTemplate(hash: string, desired: nat)
    ensures forall j :: 0 <= j < 5 ==> OfTemplate(Revival(hash, desired)[j], hash)
    ensures WantAtMost(Revival(hash, desired), 0, desired)
  {
    var actions := Revival(hash, desired);
    forall j | 0 <= j < 5 ensures OfTemplate(actions[j], hash) && WantsAtMost(actions[j], desired) {
      assert j == 0 || j == 1 || j == 2 || j == 3 || j == 4;
    }
  }

  lemma RevivalIsSilent(states: seq<Server>, hash: string, desired: nat)
    requires |states| == 6 && Sync(states[1].(writesLeft := 1), [], Want(hash, desired)).current.None?
    ensures forall j :: 0 < j < 5 ==> Silent(states[j], Revival(hash, desired)[j])
  {
    forall j | 0 < j < 5 ensures Silent(states[j], Revival(hash, desired)[j]) {
      assert j == 1 || j == 2 || j == 3 || j == 4;
    }
  }

  /** A zero that is no longer true: the empty set reports zero, then a runner is
      wanted, created and given a job, and nothing is reported meanwhile. */
  lemma StaleZero(hash: string, desired: nat) returns (states: seq<Server>)
    requires desired > 0
    ensures Revived(states, Revival(hash, desired), hash, 0, 5, 0, 0, desired)
  {
    var s0, s2 := FirstSteps(hash, desired);
    var s3, s4, s5 := RunnerWorks(s2, 0);
    states := [s0, s0, s2, s3, s4, s5];
    FiveSteps(states, Revival(hash, desired));
    RevivalOfTemplate(hash, desired);
    RevivalIsSilent(states, hash, desired);
    assert states[5] == s5;
  }

  lemma NotRevived(states: seq<Server>, actions: seq<Action>, hash: string, n: nat, m: nat, k: nat, i: nat,
                   desired: int)
    requires desired <= 0
    ensures !Revived(states, actions, hash, n, m, k, i, desired)
  {
    if Revived(states, actions, hash, n, m, k, i, desired) {
      forall j | n <= j < |actions| ensures WantsAtMost(actions[j], 0) {
        assert WantsAtMost(actions[j], desired);
      }
      DrainedStaysIdle(states, actions, hash, n, m, k, i);
    }
  }

  /** Exactly a set of which something may be wanted again can be busy after a zero. */
  lemma RevivedIff(hash: string, desired: int)
    ensures (exists states, actions, n: nat, m: nat, k: nat, i: nat ::
               Revived(states, actions, hash, n, m, k, i, desired))
            <==> desired > 0
  {
    if desired > 0 {
      var states := StaleZero(hash, desired);
    } else {
      forall states, actions, n: nat, m: nat, k: nat, i: nat
        ensures !Revived(states, actions, hash, n, m, k, i, desired)
      {
        NotRevived(states, actions, hash, n, m, k, i, desired);
      }
    }
  }
}
