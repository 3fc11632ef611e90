/** The synchronisation of runner pod owners as the source runs it, each method
    proved against its function in OwnerProtocol. */
module OwnerController {
  import opened Basics
  import opened Cluster
  import opened StableOrder
  import opened Allocation
  import opened OwnerProtocol

  /** Pod counts of one owner. */
  datatype Counts = Counts(total: nat, completed: nat, running: nat, terminating: nat, regTimeout: nat, pending: nat)

  function CountsOf(pods: seq<RunnerPod>, now: int): Counts {
    Counts(|pods|, Count(pods, Finished, now), Count(pods, Active, now),
           Count(pods, Terminating, now), Count(pods, TimedOut, now), Count(pods, Starting, now))
  }

  method CountPods(pods: seq<RunnerPod>, now: int) returns (c: Counts)
    ensures c == CountsOf(pods, now)
  {
    var total, completed, running, terminating, regTimeout, pending := 0, 0, 0, 0, 0, 0;
    for i := 0 to |pods|
      invariant total == i
      invariant completed == Count(pods[..i], Finished, now)
      invariant running == Count(pods[..i], Active, now)
      invariant terminating == Count(pods[..i], Terminating, now)
      invariant regTimeout == Count(pods[..i], TimedOut, now)
      invariant pending == Count(pods[..i], Starting, now)
    {
      assert pods[..i + 1][..i] == pods[..i];
      var p := pods[i].pod;
      total := total + 1;
      if Stopped(p.status) {
        completed := completed + 1;
      } else if p.status.phase.Running? {
        if p.marks.id.NoId? && p.status.readySince.Some? && p.status.readySince.value + REGISTRATION_TIMEOUT < now {
          regTimeout := regTimeout + 1;
        } else {
          running := running + 1;
        }
      } else if p.deleting {
        terminating := terminating + 1;
      } else {
        pending := pending + 1;
      }
    }
    assert pods[..|pods|] == pods;
    c := Counts(total, completed, running, terminating, regTimeout, pending);
  }

  /** The activities partition the pods. */
  lemma {:induction false} CountsPartition(pods: seq<RunnerPod>, now: int)
    ensures var c := CountsOf(pods, now);
            c.total == c.completed + c.running + c.terminating + c.regTimeout + c.pending
  {
    if pods != [] {
      CountsPartition(pods[..|pods| - 1], now);
    }
  }

  lemma {:induction false} AllFinished(pods: seq<RunnerPod>, now: int)
    ensures Count(pods, Finished, now) == |pods| <==> AllStopped(pods)
  {
    if pods != [] {
      var init := pods[..|pods| - 1];
      AllFinished(init, now);
      assert AllStopped(pods) <==> AllStopped(init) && Stopped(pods[|pods| - 1].pod.status);
    }
  }

  method DeletionSafe(pods: seq<RunnerPod>) returns (n: nat)
    ensures n == |pods| <==> AllSafe(pods)
  {
    n := 0;
    for i := 0 to |pods|
      invariant n <= i
      invariant n == i <==> AllSafe(pods[..i])
    {
      assert AllSafe(pods[..i + 1]) <==> AllSafe(pods[..i]) && SafeToDelete(pods[i].pod);
      if pods[i].pod.marks.complete {
        n := n + 1;
      } else if pods[i].pod.deleting {
        n := n + 1;
      }
    }
    assert pods[..|pods|] == pods;
  }

  /** The scale-down branch: too much is retained, or exactly the desired number. */
  lemma ActScalesDown(w: Sweep, hash: string, req: Request)
    requires forall v :: v in w.kept ==> v.id in w.server.owners
    requires MaybeRunning(Current(w, hash)) >= req.desired && req.desired <= RunningPods(Current(w, hash))
    ensures var retained := Retained(Current(w, hash), req.desired);
            && retained >= req.desired
            && Act(w, hash, req) ==
                 if retained == req.desired then MarkThenRetire(w, hash, req) else Outcome(w.server, None)
  {
    RetainsEnough(Current(w, hash), req.desired);
  }

  class OwnerWorld {
    var owners: map<nat, Owner>
    var next: nat
    var writesLeft: nat

    ghost function Server(): Server
      reads this
    {
      Cluster.Server(owners, next, writesLeft)
    }

    constructor (s: Server)
      ensures Server() == s
    {
      owners, next, writesLeft := s.owners, s.next, s.writesLeft;
    }

    /** Patches or deletes one owner. */
    method Write(id: nat, o: Owner) returns (ok: bool)
      modifies this
      ensures ok == (old(writesLeft) > 0)
      ensures Server() == if ok then Put(old(Server()), id, o) else old(Server())
    {
      ok := writesLeft > 0;
      if ok {
        owners, writesLeft := owners[id := o], writesLeft - 1;
      }
    }

    /** One round of the loop over owners; `keep` is false when the owner is skipped. */
    method VisitOwner(id: nat, now: int, ghost w: Sweep) returns (verdict: Verdict, keep: bool, view: View)
      requires id in owners && w.server == Server() && w.verdict.Going?
      modifies this
      ensures Server() == Visit(w, id, now).server && verdict == Visit(w, id, now).verdict
      ensures verdict.Going? && keep ==> old(owners)[id].hash.Some? && view == ViewOf(id, old(owners)[id], now)
      ensures verdict.Going? && keep ==>
                Visit(w, id, now) == w.(kept := w.kept + [view],
                                        lastSync := if old(owners)[id].syncTime.Some?
                                                    then Latest(w.lastSync, old(owners)[id].syncTime.value)
                                                    else w.lastSync)
      ensures verdict.Going? && !keep ==> Visit(w, id, now) == w.(server := Server())
    {
      var o := owners[id];
      view := View(id, "", o.created, 0, 0, 0);
      if o.hash.None? {
        return Crashed, false, view;
      }
      if o.hash.value == "" {
        return Halted, false, view;
      }
      if o.deleting {
        return Going, false, view;
      }
      if o.complete {
        var ok := Write(id, o.(deleting := true));
        return if ok then Going else Halted, false, view;
      }
      if o.requested {
        var safe := DeletionSafe(o.pods);
        if safe == |o.pods| {
          var ok := Write(id, o.(complete := true));
          return if ok then Going else Halted, false, view;
        }
      }
      var c := CountPods(o.pods, now);
      AllFinished(o.pods, now);
      if c.total > 0 && c.total == c.completed {
        var _ := Write(id, o.(deleting := true));
        return Halted, false, view;
      }
      if !Synced(o.status) {
        return Halted, false, view;
      }
      view := View(id, o.hash.value, o.created, c.total, c.running, c.pending);
      return Going, true, view;
    }

    method CollectPodsForOwners(order: seq<nat>, now: int)
      returns (verdict: Verdict, kept: seq<View>, lastSync: Option<int>)
      requires Listable(Server(), order)
      modifies this
      ensures Server() == Collect(old(Server()), order, now).server
      ensures verdict == Collect(old(Server()), order, now).verdict
      ensures verdict.Going? ==> Sweep(Server(), kept, lastSync, Going) == Collect(old(Server()), order, now)
    {
      ghost var s0 := Server();
      verdict, kept, lastSync := Going, [], None;
      for i := 0 to |order|
        invariant verdict.Going?
        invariant Sweep(Server(), kept, lastSync, Going) == Collect(s0, order[..i], now)
      {
        assert order[..i + 1][..i] == order[..i];
        assert order[i] in s0.owners;
        var syncTime := owners[order[i]].syncTime;
        var keep, view;
        verdict, keep, view := VisitOwner(order[i], now, Collect(s0, order[..i], now));
        if !verdict.Going? {
          HaltedStays(s0, order, i + 1, now);
          return;
        }
        if keep {
          if syncTime.Some? {
            lastSync := Latest(lastSync, syncTime.value);
          }
          kept := kept + [view];
        }
      }
      assert order[..|order|] == order;
    }

    method CreateReplicas(n: nat, o: Owner)
      modifies this
      ensures Server() == CreateOwners(old(Server()), n, o)
    {
      var i := 0;
      while i < n
        invariant i <= n
        invariant CreateOwners(Server(), n - i, o) == CreateOwners(old(Server()), n, o)
      {
        if writesLeft == 0 {
          return;
        }
        owners, next, writesLeft := owners[next := o], next + 1, writesLeft - 1;
        i := i + 1;
      }
    }

    /** Annotates pods one after the other until a write fails. */
    method AnnotatePods(pods: seq<RunnerPod>) returns (marked: seq<RunnerPod>, ok: bool)
      modifies this`writesLeft
      ensures MarkedPods(marked, writesLeft, ok) == MarkPods(pods, old(writesLeft))
    {
      marked, ok := [], true;
      for i := 0 to |pods|
        invariant ok && MarkedPods(marked, writesLeft, true) == MarkPods(pods[..i], old(writesLeft))
      {
        assert pods[..i + 1][..i] == pods[..i];
        var rp := pods[i];
        if !rp.pod.marks.requested {
          if writesLeft == 0 {
            FailedPodsStay(pods, i + 1, old(writesLeft));
            assert [pods[i]] + pods[i + 1..] == pods[i..];
            assert marked + pods[i..] == marked + [pods[i]] + pods[i + 1..];
            return marked + pods[i..], false;
          }
          rp, writesLeft := rp.(pod := rp.pod.(marks := With(rp.pod.marks, RequestMark))), writesLeft - 1;
        }
        marked := marked + [rp];
      }
      assert pods[..|pods|] == pods;
    }

    /** Annotates the pods of a redundant owner, then the owner. */
    method MarkForUnregistration(id: nat) returns (ok: bool)
      requires id in owners
      modifies this
      ensures Marked(Server(), ok) == MarkOwner(old(Server()), id)
    {
      var o := owners[id];
      if o.requested {
        return true;
      }
      var pods;
      pods, ok := AnnotatePods(o.pods);
      owners := owners[id := o.(pods := pods)];
      ok := ok && writesLeft > 0;
      if ok {
        owners, writesLeft := owners[id := o.(pods := pods, requested := true)], writesLeft - 1;
      }
    }

    method MarkRedundantOwners(ids: seq<nat>) returns (ok: bool)
      requires Listable(Server(), ids)
      modifies this
      ensures Marked(Server(), ok) == MarkOwners(old(Server()), ids)
    {
      ghost var s0 := Server();
      ok := true;
      for i := 0 to |ids|
        invariant ok && Marked(Server(), true) == MarkOwners(s0, ids[..i])
      {
        assert ids[..i + 1][..i] == ids[..i];
        assert ids[i] in s0.owners;
        ok := MarkForUnregistration(ids[i]);
        if !ok {
          FailedMarkStays(s0, ids, i + 1);
          return;
        }
      }
      assert ids[..|ids|] == ids;
    }

    /** Deletes one owner of another template, if there is any. */
    method DeleteOutdated(kept: seq<View>, current: seq<View>, hash: string, pick: nat)
      returns (report: Option<seq<View>>)
      requires forall v :: v in kept ==> v.id in owners
      modifies this
      ensures Outcome(Server(), report) == RetireOutdated(old(Server()), kept, current, hash, pick)
    {
      var outdated := Having(kept, hash, false);
      if outdated == [] {
        return Some(current);
      }
      var v := outdated[pick % |outdated|];
      assert v in kept;
      var _ := Write(v.id, owners[v.id].(deleting := true));
      return None;
    }

    /** One synchronisation. The report is absent when it ended early. */
    method SyncRunnerPodsOwners(order: seq<nat>, req: Request) returns (report: Option<seq<View>>)
      requires Listable(Server(), order)
      modifies this
      ensures Outcome(Server(), report) == Sync(old(Server()), order, req)
    {
      ghost var w := Collect(Server(), order, req.now);
      KeptIsListed(Server(), order, req.now);
      var verdict, kept, lastSync := CollectPodsForOwners(order, req.now);
      if !verdict.Going? || req.hash.None? {
        return None;
      }
      report := ScaleOwners(kept, lastSync, req.hash.value, req, w);
    }

    /** Creation, marking or retirement, depending on what the kept owners run. */
    method ScaleOwners(kept: seq<View>, lastSync: Option<int>, hash: string, req: Request, ghost w: Sweep)
      returns (report: Option<seq<View>>)
      requires w == Sweep(Server(), kept, lastSync, Going) && forall v :: v in kept ==> v.id in owners
      modifies this
      ensures Outcome(Server(), report) == Act(w, hash, req)
    {
      var current := StableSort(Having(kept, hash, true), CreatedAt);
      assert current == Current(w, hash);
      var running, maybeRunning := SumRunning(current);
      var wantMore := req.desired > maybeRunning;
      if wantMore && SyncedAfterEffectiveTime(req.ephemeral, lastSync, req.effective)
         && WithinRecreationDelay(lastSync, req.now) {
        // Wait for the effective time to move on or the delay to pass.
        report := LeaveOwners(kept, current, hash, req, w);
      } else if wantMore {
        report := CreateDeficit(req.desired - maybeRunning, hash, req, w);
      } else if req.desired <= running {
        report := ScaleDown(kept, current, hash, req, w);
      } else {
        report := LeaveOwners(kept, current, hash, req, w);
      }
    }

    /** The owners of the desired template stay; only outdated ones may go. */
    method LeaveOwners(kept: seq<View>, current: seq<View>, hash: string, req: Request, ghost w: Sweep)
      returns (report: Option<seq<View>>)
      requires w.server == Server() && w.kept == kept && forall v :: v in kept ==> v.id in owners
      requires current == Current(w, hash) && PlanOf(w, hash, req).LeaveAsIs?
      modifies this
      ensures Outcome(Server(), report) == Act(w, hash, req)
    {
      report := DeleteOutdated(kept, current, hash, req.pick);
    }

    method CreateDeficit(n: nat, hash: string, req: Request, ghost w: Sweep) returns (report: Option<seq<View>>)
      requires w.server == Server() && forall v :: v in w.kept ==> v.id in owners
      requires PlanOf(w, hash, req) == Create(n)
      modifies this
      ensures Outcome(Server(), report) == Act(w, hash, req)
    {
      CreateReplicas(n, NewOwner(hash, req.blank, req.now));
      return None;
    }

    /** Marks the redundant owners, unless owners with several pods retain too much. */
    method ScaleDown(kept: seq<View>, current: seq<View>, hash: string, req: Request, ghost w: Sweep)
      returns (report: Option<seq<View>>)
      requires w.server == Server() && w.kept == kept && forall v :: v in kept ==> v.id in owners
      requires current == Current(w, hash)
      requires MaybeRunning(current) >= req.desired && req.desired <= RunningPods(current)
      modifies this
      ensures Outcome(Server(), report) == Act(w, hash, req)
      ensures report.Some? ==> Retained(current, req.desired) == req.desired
    {
      var retained, redundant := SelectRedundant(current, req.desired);
      ActScalesDown(w, hash, req);  // so the source's "invalid state" panic cannot happen
      if retained > req.desired {
        return None;
      }
      var ids := Ids(current, redundant);
      assert ids == ToMark(w, hash, req.desired);
      var ok := MarkRedundantOwners(ids);
      if !ok {
        return None;
      }
      report := DeleteOutdated(kept, current, hash, req.pick);
    }
  }

  lemma {:induction false} FailedPodsStay(pods: seq<RunnerPod>, n: nat, writes: nat)
    requires n <= |pods| && !MarkPods(pods[..n], writes).ok
    ensures var m := MarkPods(pods[..n], writes); MarkPods(pods, writes) == m.(pods := m.pods + pods[n..])
    decreases |pods| - n
  {
    var m := MarkPods(pods[..n], writes);
    if n == |pods| {
      assert pods[..n] == pods;
      assert m.pods + pods[n..] == m.pods;
    } else {
      assert pods[..n + 1][..n] == pods[..n];
      FailedPodsStay(pods, n + 1, writes);
      assert m.pods + pods[n..] == m.pods + [pods[n]] + pods[n + 1..];
    }
  }

  lemma {:induction false} FailedMarkStays(s: Server, ids: seq<nat>, n: nat)
    requires Listable(s, ids) && n <= |ids| && !MarkOwners(s, ids[..n]).ok
    ensures MarkOwners(s, ids) == MarkOwners(s, ids[..n])
    decreases |ids| - n
  {
    if n == |ids| {
      assert ids[..n] == ids;
    } else {
      assert ids[..n + 1][..n] == ids[..n];
      assert ids[n] in s.owners;
      FailedMarkStays(s, ids, n + 1);
    }
  }

  method SumRunning(vs: seq<View>) returns (running: nat, maybeRunning: nat)
    ensures running == RunningPods(vs) && maybeRunning == MaybeRunning(vs)
  {
    running, maybeRunning := 0, 0;
    var i := 0;
    while i < |vs|
      invariant i <= |vs|
      invariant running + RunningPods(vs[i..]) == RunningPods(vs)
      invariant maybeRunning + MaybeRunning(vs[i..]) == MaybeRunning(vs)
    {
      assert vs[i..][1..] == vs[i + 1..];
      running, maybeRunning := running + vs[i].running, maybeRunning + vs[i].running + vs[i].pending;
      i := i + 1;
    }
  }
}
