/** What a synchronisation brings about: when it creates, which owners it gives up, what
    it deletes. */
module SyncResults {
  import opened Basics
  import opened Cluster
  import opened Allocation
  import opened OwnerProtocol
  import opened OwnerSteps
  import opened ReplicaBound
  import opened StableOrder
  import opened Termination

  // ---- What a pod counts for ----

  /** A pod that runs but whose runner has no recorded ID ten minutes after it became
      ready no longer counts; with an ID, or without ever being ready, it counts on. */
  lemma RegistrationTimesOut(p: Pod, now: int)
    requires p.status.phase.Running? && RunnerExit(p.status.containers).None?
    ensures !p.marks.id.NoId? || p.status.readySince.None? ==> Classify(p, now).Active?
    ensures p.marks.id.NoId? && p.status.readySince.Some? ==>
              if now <= p.status.readySince.value + 600 then Classify(p, now).Active? else Classify(p, now).TimedOut?
  {
  }

  /** A pod that has not started yet counts as about to run, unless it is being deleted;
      one that is over never counts. */
  lemma WaitingPodsCount(p: Pod, now: int)
    ensures p.status.phase.Pending? || p.status.phase.Unknown? ==>
              Classify(p, now) == if p.deleting then Terminating else Starting
    ensures Stopped(p.status) <==> Classify(p, now).Finished?
  {
  }

  // ---- When owners are created ----

  /** Sync times of the owners that the sweep kept. */
  ghost predicate KeptSyncTimes(w: Sweep, s: Server) {
    && (forall v :: v in w.kept ==> v.id in s.owners)
    && (w.lastSync.None? ==> forall v :: v in w.kept ==> s.owners[v.id].syncTime.None?)
    && (w.lastSync.Some? ==>
          && (exists v :: v in w.kept && s.owners[v.id].syncTime == w.lastSync)
          && forall v :: v in w.kept && s.owners[v.id].syncTime.Some? ==>
                           s.owners[v.id].syncTime.value <= w.lastSync.value)
  }

  lemma VisitSyncTimes(w: Sweep, id: nat, now: int, s: Server)
    requires id in w.server.owners && id in s.owners && KeptSyncTimes(w, s)
    requires w.server.owners[id].syncTime == s.owners[id].syncTime
    ensures KeptSyncTimes(Visit(w, id, now), s)
  {
    var w' := Visit(w, id, now);
    if w'.kept != w.kept {
      var v := ViewOf(id, w.server.owners[id], now);
      assert w'.kept == w.kept + [v] && v in w'.kept;
      if w.lastSync.Some? && w'.lastSync == w.lastSync {
        var u :| u in w.kept && s.owners[u.id].syncTime == w.lastSync;
        assert u in w'.kept;
      }
    }
  }

  /** The last sync time is the latest of the owners kept. */
  lemma {:induction false} LastSyncIsLatest(s: Server, order: seq<nat>, now: int)
    requires Listable(s, order)
    ensures KeptSyncTimes(Collect(s, order, now), s)
  {
    if order != [] {
      var id, before := order[|order| - 1], order[..|order| - 1];
      assert id in s.owners;
      LastSyncIsLatest(s, before, now);
      CollectStep(s, before, now, id, None);
      VisitSyncTimes(Collect(s, before, now), id, now, s);
    }
  }

  /** Some kept owner was synced after this time. */
  ghost predicate SyncedSince(kept: seq<View>, s: Server, time: int)
    requires forall v :: v in kept ==> v.id in s.owners
  {
    exists v :: v in kept && s.owners[v.id].syncTime.Some? && s.owners[v.id].syncTime.value > time
  }

  predicate FollowsSpec(status: OwnerStatus) {
    if status.RunnerStatus? then status.phase != ""
    else status.currentReplicas == if status.specReplicas.Some? then status.specReplicas.value else 1
  }

  /** The sweep can go on past this owner. */
  predicate LetsPass(o: Owner) {
    && o.hash.Some? && o.hash.value != ""
    && (Staying(o) ==> FollowsSpec(o.status) && (o.pods == [] || !AllStopped(o.pods)))
  }

  lemma VisitPassesIff(w: Sweep, id: nat, now: int)
    requires id in w.server.owners && w.server.writesLeft > 0
    ensures Visit(w, id, now).verdict.Going? <==> w.verdict.Going? && LetsPass(w.server.owners[id])
    ensures Visit(w, id, now).server.writesLeft >= w.server.writesLeft - 1
  {
  }

  /** With healthy writes a sweep goes to its end exactly when every listed owner has a
      template hash and is on its way out, or follows its spec and still has work to do. */
  lemma {:induction false} GoesToEndIff(s: Server, order: seq<nat>, now: int)
    requires Listable(s, order) && Distinct(order) && s.writesLeft >= |order|
    ensures Collect(s, order, now).verdict.Going? <==> forall i :: 0 <= i < |order| ==> LetsPass(s.owners[order[i]])
    ensures Collect(s, order, now).server.writesLeft >= s.writesLeft - |order|
  {
    if order != [] {
      var id, before := order[|order| - 1], order[..|order| - 1];
      assert id in s.owners && id !in before;
      GoesToEndIff(s, before, now);
      SweepTouchesListed(s, before, now, id);
      VisitPassesIff(Collect(s, before, now), id, now);
    }
  }

  lemma {:induction false} CreateCount(s: Server, n: nat, o: Owner)
    requires Named(s)
    ensures |CreateOwners(s, n, o).owners.Keys| == |s.owners.Keys| + Min(n, s.writesLeft)
    decreases n
  {
    if n > 0 && s.writesLeft > 0 {
      var s' := Server(s.owners[s.next := o], s.next + 1, s.writesLeft - 1);
      assert s'.owners.Keys == s.owners.Keys + {s.next} && s.next !in s.owners.Keys;
      CreateCount(s', n - 1, o);
    }
  }

  /** The gate is open: for ephemeral runners no kept owner was synced after the effective
      time, or none in the last ten minutes. */
  ghost predicate GateOpen(w: Sweep, s: Server, req: Request)
    requires forall v :: v in w.kept ==> v.id in s.owners
  {
    || !req.ephemeral || req.effective.None?
    || !SyncedSince(w.kept, s, req.effective.value) || !SyncedSince(w.kept, s, req.now - 600)
  }

  lemma GateIsPlan(s: Server, order: seq<nat>, req: Request)
    requires Listable(s, order)
    ensures var w := Collect(s, order, req.now);
            && (forall v :: v in w.kept ==> v.id in s.owners)
            && (GateOpen(w, s, req) <==>
                  !(SyncedAfterEffectiveTime(req.ephemeral, w.lastSync, req.effective)
                    && WithinRecreationDelay(w.lastSync, req.now)))
  {
    LastSyncIsLatest(s, order, req.now);
  }

  /** Acting on the plan adds exactly the owners it is to create, as far as writes go. */
  lemma ActAdds(w: Sweep, hash: string, req: Request)
    requires Named(w.server) && forall v :: v in w.kept ==> v.id in w.server.owners
    ensures var plan := PlanOf(w, hash, req);
            |Act(w, hash, req).server.owners.Keys| ==
              |w.server.owners.Keys| + if plan.Create? then Min(plan.count, w.server.writesLeft) else 0
  {
    var plan := PlanOf(w, hash, req);
    if plan.Create? {
      CreateCount(w.server, plan.count, NewOwner(hash, req.blank, req.now));
    } else {
      OnlyCreationAdds(w, hash, req);
    }
  }

  /** The plan is to create the missing owners exactly when some are missing and nothing
      holds creation back. */
  lemma PlanCreatesIff(w: Sweep, hash: string, req: Request)
    ensures var plan, missing := PlanOf(w, hash, req), req.desired - MaybeRunning(Current(w, hash));
            && (plan.Create? <==>
                  && missing > 0
                  && !(SyncedAfterEffectiveTime(req.ephemeral, w.lastSync, req.effective)
                       && WithinRecreationDelay(w.lastSync, req.now)))
            && (plan.Create? ==> plan.count == missing)
  {
  }

  /** What a sweep that ended well leads to, if runners are missing and the gate is open. */
  ghost predicate Fills(w: Sweep, before: int, after: int, req: Request, open: bool)
    requires req.hash.Some?
  {
    var missing := req.desired - MaybeRunning(Current(w, req.hash.value));
    after == before + if missing > 0 && open then Min(missing, w.server.writesLeft) else 0
  }

  lemma ActFills(w: Sweep, req: Request, open: bool)
    requires Named(w.server) && (forall v :: v in w.kept ==> v.id in w.server.owners) && req.hash.Some?
    requires open <==> !(SyncedAfterEffectiveTime(req.ephemeral, w.lastSync, req.effective)
                         && WithinRecreationDelay(w.lastSync, req.now))
    ensures Fills(w, |w.server.owners.Keys|, |Act(w, req.hash.value, req).server.owners.Keys|, req, open)
  {
    PlanCreatesIff(w, req.hash.value, req);
    ActAdds(w, req.hash.value, req);
  }

  /** A synchronisation that reaches its plan creates exactly the deficit, or as many as
      the API server takes, if runners are missing and the gate is open, and else none. */
  lemma CreatesExactly(s: Server, order: seq<nat>, req: Request)
    requires Listable(s, order) && Named(s) && Collect(s, order, req.now).verdict.Going? && req.hash.Some?
    ensures var w := Collect(s, order, req.now);
            && (forall v :: v in w.kept ==> v.id in s.owners)
            && Fills(w, |s.owners.Keys|, |Sync(s, order, req).server.owners.Keys|, req, GateOpen(w, s, req))
  {
    var w := Collect(s, order, req.now);
    KeptIsListed(s, order, req.now);
    GateIsPlan(s, order, req);
    ActFills(w, req, GateOpen(w, s, req));
  }

  /** An owner that a synchronisation adds has the template asked for, is created and
      synced at that time, and is unmarked and without pods. */
  lemma BornNow(s: Server, order: seq<nat>, req: Request, k: nat)
    requires Listable(s, order) && k in Sync(s, order, req).server.owners && k !in s.owners
    ensures var o := Sync(s, order, req).server.owners[k];
            && o.hash == req.hash && o.created == req.now && o.syncTime == Some(req.now) && o.status == req.blank
            && !o.requested && !o.complete && !o.deleting && o.pods == []
  {
    SyncNewOwners(s, order, req, k);
  }

  // ---- No second creation right after a first one ----

  lemma SyncTimeStays(s: Server, a: Action, k: nat)
    requires Named(s) && Possible(s, a) && k < s.next && k in After(s, a).owners
    ensures k in s.owners && After(s, a).owners[k].syncTime == s.owners[k].syncTime
  {
    if a.Synchronise? {
      if k in s.owners {
        SyncStep(s.(writesLeft := a.writes), a.order, a.req, k);
      } else {
        SyncNewOwners(s.(writesLeft := a.writes), a.order, a.req, k);
      }
    }
  }

  lemma {:induction false} SyncTimeSince(states: seq<Server>, actions: seq<Action>, k: nat, i: nat, j: nat)
    requires Run(states, actions) && i <= j <= |actions| && Named(states[i]) && k < states[i].next
    requires k in states[j].owners
    ensures Named(states[j]) && k < states[j].next
    ensures k in states[i].owners && states[j].owners[k].syncTime == states[i].owners[k].syncTime
    decreases j
  {
    if i < j {
      NamesSince(states, actions, i, j - 1);
      assert StepAt(states, actions, j - 1);
      StepKeepsNames(states[j - 1], actions[j - 1]);
      SyncTimeStays(states[j - 1], actions[j - 1], k);
      SyncTimeSince(states, actions, k, i, j - 1);
    }
  }

  lemma {:induction false} NamesSince(states: seq<Server>, actions: seq<Action>, i: nat, j: nat)
    requires Run(states, actions) && i <= j <= |actions| && Named(states[i])
    ensures Named(states[j]) && states[i].next <= states[j].next
    decreases j
  {
    if i < j {
      NamesSince(states, actions, i, j - 1);
      assert StepAt(states, actions, j - 1);
      StepKeepsNames(states[j - 1], actions[j - 1]);
    }
  }

  /** An owner created in step `n` holds back creation for ten minutes: while it stays, no
      later synchronisation for ephemeral runners creates an owner unless the effective
      time has moved past its creation. */
  lemma NoBurst(states: seq<Server>, actions: seq<Action>, k: nat, n: nat, m: nat)
    requires Run(states, actions) && n < m < |actions| && Named(states[n])
    requires actions[n].Synchronise? && k !in states[n].owners && k in states[n + 1].owners
    requires actions[m].Synchronise? && k in states[m].owners && k in actions[m].order && Staying(states[m].owners[k])
    requires var req := actions[m].req;
             && req.ephemeral && req.effective.Some? && req.effective.value < actions[n].req.now
             && req.now < actions[n].req.now + 600
    ensures states[m + 1].owners.Keys <= states[m].owners.Keys
  {
    assert StepAt(states, actions, n) && StepAt(states, actions, m);
    StepKeepsNames(states[n], actions[n]);
    SyncNewOwners(states[n].(writesLeft := actions[n].writes), actions[n].order, actions[n].req, k);
    SyncTimeSince(states, actions, k, n + 1, m);
    NoCreationWithinDelay(states[m].(writesLeft := actions[m].writes), actions[m].order, actions[m].req, k);
  }

  // ---- Which owners are given up ----

  ghost predicate KeptCreated(kept: seq<View>, s: Server) {
    forall v :: v in kept ==> v.id in s.owners && v.created == s.owners[v.id].created
  }

  lemma {:induction false} CollectKeptCreated(s: Server, order: seq<nat>, now: int)
    requires Listable(s, order)
    ensures KeptCreated(Collect(s, order, now).kept, s)
  {
    if order != [] {
      var id := order[|order| - 1];
      assert id in s.owners;
      CollectKeptCreated(s, order[..|order| - 1], now);
      CollectStep(s, order[..|order| - 1], now, id, None);
    }
  }

  lemma {:induction false} MarkedAreListed(s: Server, ids: seq<nat>, k: nat)
    requires Listable(s, ids) && k in s.owners && k !in ids
    ensures MarkOwners(s, ids).server.owners[k] == s.owners[k]
  {
    if ids != [] {
      assert ids[|ids| - 1] in s.owners && ids[|ids| - 1] != k;
      MarkedAreListed(s, ids[..|ids| - 1], k);
    }
  }

  lemma VisitMarksNone(w: Sweep, id: nat, now: int, k: nat)
    requires id in w.server.owners && k in w.server.owners
    ensures Visit(w, id, now).server.owners[k].requested == w.server.owners[k].requested
  {
  }

  lemma {:induction false} SweepMarksNone(s: Server, order: seq<nat>, now: int, k: nat)
    requires Listable(s, order) && k in s.owners
    ensures Collect(s, order, now).server.owners[k].requested == s.owners[k].requested
  {
    if order != [] {
      var id, before := order[|order| - 1], order[..|order| - 1];
      assert id in s.owners;
      SweepMarksNone(s, before, now, k);
      VisitMarksNone(Collect(s, before, now), id, now, k);
    }
  }

  /** Owner `k` becomes marked: it stands in the list of current owners, given up. */
  ghost predicate IsGivenUp(current: seq<View>, desired: int, k: nat, j: nat) {
    j < |current| && current[j].id == k && GivenUp(current, desired, j)
  }

  lemma RetireMarksNone(s: Server, kept: seq<View>, current: seq<View>, hash: string, pick: nat, k: nat)
    requires (forall v :: v in kept ==> v.id in s.owners) && k in s.owners
    ensures var r := RetireOutdated(s, kept, current, hash, pick).server;
            k in r.owners && r.owners[k].requested == s.owners[k].requested
  {
  }

  lemma MarkThenRetireMarks(w: Sweep, hash: string, req: Request, k: nat)
    requires (forall v :: v in w.kept ==> v.id in w.server.owners) && k in w.server.owners
    ensures k in MarkThenRetire(w, hash, req).server.owners
    ensures k !in ToMark(w, hash, req.desired) ==>
              MarkThenRetire(w, hash, req).server.owners[k].requested == w.server.owners[k].requested
  {
    var ids := ToMark(w, hash, req.desired);
    var m := MarkOwners(w.server, ids);
    RetireMarksNone(m.server, w.kept, Current(w, hash), hash, req.pick, k);
    if k !in ids {
      MarkedAreListed(w.server, ids, k);
    }
  }

  lemma ActMarks(w: Sweep, hash: string, req: Request, k: nat)
    requires (forall v :: v in w.kept ==> v.id in w.server.owners) && k in w.server.owners && k < w.server.next
    requires k in Act(w, hash, req).server.owners
    ensures Act(w, hash, req).server.owners[k].requested && !w.server.owners[k].requested ==>
              k in ToMark(w, hash, req.desired) && req.desired <= RunningPods(Current(w, hash))
  {
    var plan := PlanOf(w, hash, req);
    match plan
    case Create(n) => CreateKeepsOwners(w.server, n, NewOwner(hash, req.blank, req.now), k);
    case MarkRedundant => MarkThenRetireMarks(w, hash, req, k);
    case LeaveAsIs => RetireMarksNone(w.server, w.kept, Current(w, hash), hash, req.pick, k);
    case WaitForSync =>
    case InvalidState =>
  }

  lemma ToMarkIsGivenUp(w: Sweep, hash: string, desired: int, k: nat) returns (j: nat)
    requires (forall v :: v in w.kept ==> v.id in w.server.owners) && k in ToMark(w, hash, desired)
    ensures IsGivenUp(Current(w, hash), desired, k, j)
  {
    var ids, r := ToMark(w, hash, desired), Redundant(Current(w, hash), desired, 0);
    var i :| 0 <= i < |ids| && ids[i] == k;
    assert r[i] in r;
    j := r[i];
  }

  lemma NewlyMarked(s: Server, order: seq<nat>, req: Request, k: nat) returns (j: nat)
    requires Listable(s, order) && k in s.owners && k < s.next && !s.owners[k].requested
    requires k in Sync(s, order, req).server.owners && Sync(s, order, req).server.owners[k].requested
    ensures req.hash.Some?
    ensures var current := Current(Collect(s, order, req.now), req.hash.value);
            IsGivenUp(current, req.desired, k, j) && req.desired <= RunningPods(current)
  {
    var w := Collect(s, order, req.now);
    KeptIsListed(s, order, req.now);
    SweepMarksNone(s, order, req.now, k);
    ActMarks(w, req.hash.value, req, k);
    j := ToMarkIsGivenUp(w, req.hash.value, req.desired, k);
  }

  lemma {:induction false} MarkPodsSucceeds(pods: seq<RunnerPod>, writes: nat)
    requires writes >= |pods|
    ensures MarkPods(pods, writes).ok && MarkPods(pods, writes).writes >= writes - |pods|
  {
    if pods != [] {
      MarkPodsSucceeds(pods[..|pods| - 1], writes);
    }
  }

  /** The most writes that marking these owners can take. */
  function Cost(s: Server, ids: seq<nat>): nat
    requires Listable(s, ids)
  {
    if ids == [] then 0
    else
      assert ids[|ids| - 1] in s.owners;
      Cost(s, ids[..|ids| - 1]) + |s.owners[ids[|ids| - 1]].pods| + 1
  }

  lemma MarkOwnerSucceeds(s: Server, id: nat)
    requires id in s.owners && s.writesLeft > |s.owners[id].pods|
    ensures var m := MarkOwner(s, id);
            && m.ok && m.server.owners[id].requested
            && m.server.writesLeft >= s.writesLeft - |s.owners[id].pods| - 1
    ensures forall k :: k in s.owners && s.owners[k].requested ==> MarkOwner(s, id).server.owners[k].requested
  {
    MarkPodsSucceeds(s.owners[id].pods, s.writesLeft);
  }

  lemma {:induction false} MarkOwnersKeepsSizes(s: Server, ids: seq<nat>, k: nat)
    requires Listable(s, ids) && k in s.owners
    ensures |MarkOwners(s, ids).server.owners[k].pods| == |s.owners[k].pods|
  {
    if ids != [] {
      assert ids[|ids| - 1] in s.owners;
      MarkOwnersKeepsSizes(s, ids[..|ids| - 1], k);
    }
  }

  ghost predicate AllMarked(s: Server, ids: seq<nat>) {
    forall i :: 0 <= i < |ids| ==> ids[i] in s.owners && s.owners[ids[i]].requested
  }

  lemma MarkedOneMore(s: Server, ids: seq<nat>, id: nat)
    requires AllMarked(s, ids) && id in s.owners && s.writesLeft > |s.owners[id].pods|
    ensures AllMarked(MarkOwner(s, id).server, ids + [id])
  {
    MarkOwnerSucceeds(s, id);
  }

  lemma {:induction false} MarkOwnersSucceeds(s: Server, ids: seq<nat>)
    requires Listable(s, ids) && s.writesLeft >= Cost(s, ids)
    ensures var m := MarkOwners(s, ids);
            m.ok && m.server.writesLeft >= s.writesLeft - Cost(s, ids) && AllMarked(m.server, ids)
  {
    if ids != [] {
      var id, before := ids[|ids| - 1], ids[..|ids| - 1];
      assert id in s.owners && before + [id] == ids;
      MarkOwnersSucceeds(s, before);
      MarkOwnersKeepsSizes(s, before, id);
      MarkOwnerSucceeds(MarkOwners(s, before).server, id);
      MarkedOneMore(MarkOwners(s, before).server, before, id);
    }
  }

  lemma MarkThenRetireMarksAll(w: Sweep, hash: string, req: Request, k: nat)
    requires (forall v :: v in w.kept ==> v.id in w.server.owners) && k in ToMark(w, hash, req.desired)
    requires w.server.writesLeft >= Cost(w.server, ToMark(w, hash, req.desired))
    ensures k in MarkThenRetire(w, hash, req).server.owners
    ensures MarkThenRetire(w, hash, req).server.owners[k].requested
  {
    var ids := ToMark(w, hash, req.desired);
    MarkOwnersSucceeds(w.server, ids);
    RetireMarksNone(MarkOwners(w.server, ids).server, w.kept, Current(w, hash), hash, req.pick, k);
  }

  lemma GivenUpIsToMark(w: Sweep, hash: string, desired: int, k: nat, j: nat)
    requires (forall v :: v in w.kept ==> v.id in w.server.owners) && IsGivenUp(Current(w, hash), desired, k, j)
    ensures k in ToMark(w, hash, desired)
  {
    var r := Redundant(Current(w, hash), desired, 0);
    assert j in r;
    var i :| 0 <= i < |r| && r[i] == j;
    assert ToMark(w, hash, desired)[i] == k;
  }

  /** Conversely, with healthy writes every owner given up on a scale-down is marked, those
      that were marked before included. */
  lemma GivenUpAreMarked(s: Server, order: seq<nat>, req: Request, k: nat, j: nat)
    requires Listable(s, order) && Collect(s, order, req.now).verdict.Going? && req.hash.Some?
    requires forall v :: v in Collect(s, order, req.now).kept ==> v.id in s.owners
    requires var w := Collect(s, order, req.now);
             && PlanOf(w, req.hash.value, req).MarkRedundant?
             && w.server.writesLeft >= Cost(w.server, ToMark(w, req.hash.value, req.desired))
             && IsGivenUp(Current(w, req.hash.value), req.desired, k, j)
    ensures k in Sync(s, order, req).server.owners && Sync(s, order, req).server.owners[k].requested
  {
    var w := Collect(s, order, req.now);
    GivenUpIsToMark(w, req.hash.value, req.desired, k, j);
    MarkThenRetireMarksAll(w, req.hash.value, req, k);
  }

  /** Scale-down on the owners themselves: an owner that a synchronisation newly marks
      although its pod runs is no newer than any current owner that is not given up, and
      those hold exactly the desired number of running pods. */
  lemma MarksTheOldest(s: Server, order: seq<nat>, req: Request, k: nat, i: nat)
    requires Listable(s, order) && k in s.owners && k < s.next && !s.owners[k].requested
    requires k in Sync(s, order, req).server.owners && Sync(s, order, req).server.owners[k].requested
    requires req.hash.Some? && req.desired >= 0
    requires var current := Current(Collect(s, order, req.now), req.hash.value);
             && (forall n :: 0 <= n < |current| ==> current[n].running <= 1)
             && i < |current| && !GivenUp(current, req.desired, i)
    ensures var current := Current(Collect(s, order, req.now), req.hash.value);
            && RunningKept(current, req.desired, 0) == req.desired
            && current[i].id in s.owners
            && (Count(s.owners[k].pods, Active, req.now) > 0 ==> s.owners[k].created <= s.owners[current[i].id].created)
  {
    var w := Collect(s, order, req.now);
    var current := Current(w, req.hash.value);
    var j := NewlyMarked(s, order, req, k);
    CurrentIsKept(w, req.hash.value);
    CollectKeptCreated(s, order, req.now);
    CollectKeptRunning(s, order, req.now);
    assert current[i] in w.kept && current[j] in w.kept;
    ScaleDownKeepsNewest(current, req.desired);
  }

  ghost predicate KeptRunning(kept: seq<View>, s: Server, now: int) {
    forall v :: v in kept ==> v.id in s.owners && v.running == Count(s.owners[v.id].pods, Active, now)
  }

  lemma {:induction false} SamePodsCount(a: seq<RunnerPod>, b: seq<RunnerPod>, now: int)
    requires |a| == |b| && forall i :: 0 <= i < |a| ==> PodAdvances(a[i], b[i])
    ensures Count(a, Active, now) == Count(b, Active, now)
  {
    if a != [] {
      SamePodsCount(a[..|a| - 1], b[..|b| - 1], now);
      assert PodAdvances(a[|a| - 1], b[|a| - 1]);
    }
  }

  lemma SweepKeepsCount(s: Server, order: seq<nat>, now: int, k: nat)
    requires Listable(s, order) && k in s.owners
    ensures Count(Collect(s, order, now).server.owners[k].pods, Active, now) == Count(s.owners[k].pods, Active, now)
  {
    CollectStep(s, order, now, k, None);
    SamePodsCount(s.owners[k].pods, Collect(s, order, now).server.owners[k].pods, now);
  }

  lemma VisitKeptRunning(w: Sweep, id: nat, now: int, s: Server)
    requires KeptRunning(w.kept, s, now) && id in w.server.owners && id in s.owners
    requires Count(w.server.owners[id].pods, Active, now) == Count(s.owners[id].pods, Active, now)
    ensures KeptRunning(Visit(w, id, now).kept, s, now)
  {
  }

  lemma {:induction false} CollectKeptRunning(s: Server, order: seq<nat>, now: int)
    requires Listable(s, order)
    ensures KeptRunning(Collect(s, order, now).kept, s, now)
  {
    if order != [] {
      var id, before := order[|order| - 1], order[..|order| - 1];
      assert id in s.owners;
      CollectKeptRunning(s, before, now);
      SweepKeepsCount(s, before, now, id);
      VisitKeptRunning(Collect(s, before, now), id, now, s);
    }
  }

  // ---- What is deleted ----

  /** A sweep that reaches an owner whose pods are all over deletes it, marked or not. */
  lemma StoppedOwnerGoes(s: Server, order: seq<nat>, now: int, n: nat)
    requires Listable(s, order) && n < |order| && order[n] !in order[..n]
    requires Collect(s, order[..n], now).verdict.Going? && Collect(s, order[..n], now).server.writesLeft > 0
    requires var o := s.owners[order[n]];
             && o.hash.Some? && o.hash.value != "" && !o.complete && !(o.requested && AllSafe(o.pods))
             && o.pods != [] && AllStopped(o.pods)
    ensures Collect(s, order, now).server.owners[order[n]].deleting
  {
    SweepTouchesListed(s, order[..n], now, order[n]);
    assert order[..n + 1][..n] == order[..n];
    if s.owners[order[n]].deleting {
      CollectStep(s, order, now, order[n], None);
    } else {
      HaltedStays(s, order, n + 1, now);
    }
  }

  lemma RetireDeletes(s: Server, kept: seq<View>, current: seq<View>, hash: string, pick: nat) returns (v: View)
    requires (forall u :: u in kept ==> u.id in s.owners) && s.writesLeft > 0
    requires exists u :: u in kept && u.hash != hash
    ensures v in kept && v.hash != hash
    ensures var r := RetireOutdated(s, kept, current, hash, pick).server;
            v.id in r.owners && r.owners[v.id].deleting
  {
    var outdated := Having(kept, hash, false);
    var u :| u in kept && u.hash != hash;
    assert u in outdated;
    v := outdated[pick % |outdated|];
    assert v in outdated;
  }

  lemma ActRetires(w: Sweep, hash: string, req: Request) returns (v: View)
    requires (forall u :: u in w.kept ==> u.id in w.server.owners) && w.server.writesLeft > 0
    requires PlanOf(w, hash, req).LeaveAsIs? && exists u :: u in w.kept && u.hash != hash
    ensures v in w.kept && v.hash != hash
    ensures v.id in Act(w, hash, req).server.owners && Act(w, hash, req).server.owners[v.id].deleting
  {
    v := RetireDeletes(w.server, w.kept, Current(w, hash), hash, req.pick);
  }

  /** When nothing is to be created or marked, an owner of another template is deleted. */
  lemma OutdatedOwnerGoes(s: Server, order: seq<nat>, req: Request) returns (v: View)
    requires Listable(s, order) && Collect(s, order, req.now).verdict.Going? && req.hash.Some?
    requires var w := Collect(s, order, req.now);
             && PlanOf(w, req.hash.value, req).LeaveAsIs? && w.server.writesLeft > 0
             && exists u :: u in w.kept && u.hash != req.hash.value
    ensures v in Collect(s, order, req.now).kept && v.hash != req.hash.value
    ensures v.id in Sync(s, order, req).server.owners && Sync(s, order, req).server.owners[v.id].deleting
  {
    var w := Collect(s, order, req.now);
    KeptIsListed(s, order, req.now);
    v := ActRetires(w, req.hash.value, req);
  }
}
