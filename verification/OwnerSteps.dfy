/** What one synchronisation does to one owner, whichever of its branches it takes. */
module OwnerSteps {
  import opened Basics
  import opened Cluster
  import opened Allocation
  import opened OwnerProtocol
  import PodProtocol

  ghost predicate AllDead(pods: seq<RunnerPod>) {
    forall i :: 0 <= i < |pods| ==> Dead(pods[i])
  }

  /** Why deleting this owner cannot hit a running job: an unregistered pod is dead,
      and an owner is only marked complete when all its pods are. */
  ghost predicate PodSafe(rp: RunnerPod, ownerDeleting: bool) {
    && PodProtocol.Truthful(rp)
    && (rp.pod.deleting ==> ownerDeleting)
    && (rp.pod.marks.complete && !rp.pod.deleting ==> Dead(rp))
  }

  ghost predicate OwnerSafe(o: Owner) {
    && (forall i :: 0 <= i < |o.pods| ==> PodSafe(o.pods[i], o.deleting))
    && (o.complete ==> AllDead(o.pods))
  }

  /** The four phases: pod marks in order, and an owner's complete mark only over
      pods that are complete or being deleted. */
  ghost predicate OwnerPhase(o: Owner) {
    && (forall i :: 0 <= i < |o.pods| ==> PodProtocol.PhaseOrder(o.pods[i].pod))
    && (o.complete ==> o.requested && AllSafe(o.pods))
  }

  /** A marked owner has asked all its pods to unregister. */
  ghost predicate AsksAll(o: Owner) {
    o.requested ==> forall i :: 0 <= i < |o.pods| ==> o.pods[i].pod.marks.requested
  }

  /** `b` is `a`, possibly with the request mark added. */
  predicate PodAdvances(a: RunnerPod, b: RunnerPod) {
    b == a || b == a.(pod := a.pod.(marks := a.pod.marks.(requested := true)))
  }

  ghost predicate Advances(a: Owner, b: Owner) {
    && b.hash == a.hash && b.created == a.created && b.syncTime == a.syncTime && b.status == a.status
    && |b.pods| == |a.pods| && (forall i :: 0 <= i < |a.pods| ==> PodAdvances(a.pods[i], b.pods[i]))
    && (a.requested ==> b.requested) && (a.complete ==> b.complete) && (a.deleting ==> b.deleting)
  }

  /** One synchronisation with desired template `hash`, seen from one owner: the
      phases, the safety facts and the request marks are kept, and unless the owner is of
      another template its deletion only starts over dead runners. */
  ghost predicate OwnerStep(a: Owner, b: Owner, hash: Option<string>) {
    && Advances(a, b)
    && (OwnerPhase(a) ==> OwnerPhase(b))
    && (OwnerSafe(a) ==> OwnerSafe(b))
    && (AsksAll(a) ==> AsksAll(b))
    && (OwnerSafe(a) && !a.deleting && b.deleting ==> AllDead(b.pods) || a.hash != hash)
  }

  lemma AdvancesTransitive(a: Owner, b: Owner, c: Owner)
    requires Advances(a, b) && Advances(b, c)
    ensures Advances(a, c)
  {
    forall i | 0 <= i < |a.pods| ensures PodAdvances(a.pods[i], c.pods[i]) {
      assert PodAdvances(a.pods[i], b.pods[i]) && PodAdvances(b.pods[i], c.pods[i]);
    }
  }

  lemma AdvancesKeepsDead(a: Owner, b: Owner)
    requires Advances(a, b) && AllDead(a.pods)
    ensures AllDead(b.pods)
  {
    forall i | 0 <= i < |b.pods| ensures Dead(b.pods[i]) {
      assert PodAdvances(a.pods[i], b.pods[i]);
    }
  }

  lemma StepTransitive(a: Owner, b: Owner, c: Owner, hash: Option<string>)
    requires OwnerStep(a, b, hash) && OwnerStep(b, c, hash)
    ensures OwnerStep(a, c, hash)
  {
    AdvancesTransitive(a, b, c);
    if OwnerSafe(a) && !a.deleting && b.deleting && AllDead(b.pods) {
      AdvancesKeepsDead(b, c);
    }
  }

  /** Deleting or completing an owner without touching its pods. */
  lemma FlagStep(a: Owner, b: Owner, hash: Option<string>)
    requires b == a.(complete := b.complete, deleting := b.deleting)
    requires a.complete ==> b.complete
    requires a.deleting ==> b.deleting
    requires !a.complete && b.complete ==> a.requested && AllSafe(a.pods) && !a.deleting
    requires !a.deleting && b.deleting ==> a.complete || AllStopped(a.pods) || a.hash != hash
    ensures OwnerStep(a, b, hash)
  {
    if OwnerSafe(a) && !a.complete && b.complete {
      forall i | 0 <= i < |a.pods| ensures Dead(a.pods[i]) {
        assert PodSafe(a.pods[i], a.deleting) && SafeToDelete(a.pods[i].pod);
      }
    }
    if OwnerSafe(a) {
      forall i | 0 <= i < |b.pods| ensures PodSafe(b.pods[i], b.deleting) {
        assert PodSafe(a.pods[i], a.deleting);
      }
    }
  }

  lemma VisitStep(w: Sweep, id: nat, now: int, k: nat, hash: Option<string>)
    requires id in w.server.owners && k in w.server.owners
    ensures OwnerStep(w.server.owners[k], Visit(w, id, now).server.owners[k], hash)
  {
    FlagStep(w.server.owners[k], Visit(w, id, now).server.owners[k], hash);
  }

  lemma {:induction false} CollectStep(s: Server, order: seq<nat>, now: int, k: nat, hash: Option<string>)
    requires Listable(s, order) && k in s.owners
    ensures OwnerStep(s.owners[k], Collect(s, order, now).server.owners[k], hash)
  {
    if order == [] {
      FlagStep(s.owners[k], s.owners[k], hash);
    } else {
      var id := order[|order| - 1];
      assert id in s.owners;
      var w := Collect(s, order[..|order| - 1], now);
      CollectStep(s, order[..|order| - 1], now, k, hash);
      VisitStep(w, id, now, k, hash);
      StepTransitive(s.owners[k], w.server.owners[k], Visit(w, id, now).server.owners[k], hash);
    }
  }

  predicate Distinct(order: seq<nat>) {
    forall i, j :: 0 <= i < j < |order| ==> order[i] != order[j]
  }

  lemma {:induction false} SweepTouchesListed(s: Server, order: seq<nat>, now: int, k: nat)
    requires Listable(s, order) && k in s.owners && k !in order
    ensures Collect(s, order, now).server.owners[k] == s.owners[k]
  {
    if order != [] {
      assert order[|order| - 1] in s.owners && order[|order| - 1] != k;
      SweepTouchesListed(s, order[..|order| - 1], now, k);
    }
  }

  /** The handshake moves on: a sweep that is not cut short completes every listed
      owner that was marked and whose pods are all safe, and starts the deletion of
      every owner that was complete. */
  lemma {:induction false} SweepMovesOn(s: Server, order: seq<nat>, now: int, k: nat)
    requires Listable(s, order) && Distinct(order) && k in order && Collect(s, order, now).verdict.Going?
    ensures var o, o' := s.owners[k], Collect(s, order, now).server.owners[k];
            && (o.complete ==> o'.deleting)
            && (o.requested && AllSafe(o.pods) && !o.deleting ==> o'.complete)
  {
    var id, before := order[|order| - 1], order[..|order| - 1];
    assert id in s.owners;
    assert order == before + [id];
    if k == id {
      SweepTouchesListed(s, before, now, k);
    } else {
      SweepMovesOn(s, before, now, k);
      VisitStep(Collect(s, before, now), id, now, k, None);
    }
  }

  lemma {:induction false} MarkPodsAdvances(pods: seq<RunnerPod>, writes: nat)
    ensures forall i :: 0 <= i < |pods| ==> PodAdvances(pods[i], MarkPods(pods, writes).pods[i])
  {
    if pods != [] {
      MarkPodsAdvances(pods[..|pods| - 1], writes);
    }
  }

  /** Adding request marks changes nothing the phases or the safety facts look at. */
  lemma MarkStep(a: Owner, b: Owner, hash: Option<string>)
    requires Advances(a, b) && b.complete == a.complete && b.deleting == a.deleting
    requires AsksAll(a) ==> AsksAll(b)
    ensures OwnerStep(a, b, hash)
  {
    if OwnerPhase(a) {
      forall i | 0 <= i < |b.pods|
        ensures PodProtocol.PhaseOrder(b.pods[i].pod) && (b.complete ==> SafeToDelete(b.pods[i].pod))
      {
        assert PodAdvances(a.pods[i], b.pods[i]) && PodProtocol.PhaseOrder(a.pods[i].pod);
      }
    }
    if OwnerSafe(a) {
      forall i | 0 <= i < |b.pods| ensures PodSafe(b.pods[i], b.deleting) && (b.complete ==> Dead(b.pods[i])) {
        assert PodAdvances(a.pods[i], b.pods[i]) && PodSafe(a.pods[i], a.deleting);
      }
    }
  }

  lemma {:induction false} MarkPodsMarks(pods: seq<RunnerPod>, writes: nat)
    ensures MarkPods(pods, writes).ok ==>
              forall i :: 0 <= i < |pods| ==> MarkPods(pods, writes).pods[i].pod.marks.requested
  {
    if pods != [] {
      MarkPodsMarks(pods[..|pods| - 1], writes);
    }
  }

  lemma MarkOwnerStep(s: Server, id: nat, k: nat, hash: Option<string>)
    requires id in s.owners && k in s.owners
    ensures OwnerStep(s.owners[k], MarkOwner(s, id).server.owners[k], hash)
  {
    MarkPodsAdvances(s.owners[id].pods, s.writesLeft);
    MarkPodsMarks(s.owners[id].pods, s.writesLeft);
    MarkStep(s.owners[k], MarkOwner(s, id).server.owners[k], hash);
  }

  lemma {:induction false} MarkOwnersStep(s: Server, ids: seq<nat>, k: nat, hash: Option<string>)
    requires Listable(s, ids) && k in s.owners
    ensures OwnerStep(s.owners[k], MarkOwners(s, ids).server.owners[k], hash)
  {
    if ids == [] {
      FlagStep(s.owners[k], s.owners[k], hash);
    } else {
      var id := ids[|ids| - 1];
      assert id in s.owners;
      var m := MarkOwners(s, ids[..|ids| - 1]);
      MarkOwnersStep(s, ids[..|ids| - 1], k, hash);
      if m.ok {
        MarkOwnerStep(m.server, id, k, hash);
        StepTransitive(s.owners[k], m.server.owners[k], MarkOwner(m.server, id).server.owners[k], hash);
      }
    }
  }

  /** The sweep keeps an owner under the hash that its label carries. */
  ghost predicate KeptHashes(kept: seq<View>, s: Server) {
    forall v :: v in kept ==> v.id in s.owners && s.owners[v.id].hash == Some(v.hash)
  }

  lemma {:induction false} CollectKeptHashes(s: Server, order: seq<nat>, now: int)
    requires Listable(s, order)
    ensures KeptHashes(Collect(s, order, now).kept, s)
  {
    if order != [] {
      var id := order[|order| - 1];
      assert id in s.owners;
      CollectKeptHashes(s, order[..|order| - 1], now);
      CollectStep(s, order[..|order| - 1], now, id, None);
    }
  }

  lemma RetireStep(s: Server, kept: seq<View>, current: seq<View>, hash: string, pick: nat, k: nat)
    requires KeptHashes(kept, s) && k in s.owners
    ensures var r := RetireOutdated(s, kept, current, hash, pick);
            k in r.server.owners && OwnerStep(s.owners[k], r.server.owners[k], Some(hash))
  {
    FlagStep(s.owners[k], RetireOutdated(s, kept, current, hash, pick).server.owners[k], Some(hash));
  }

  lemma {:induction false} CreateKeepsOwners(s: Server, n: nat, o: Owner, k: nat)
    requires k in s.owners && k < s.next
    ensures k in CreateOwners(s, n, o).owners && CreateOwners(s, n, o).owners[k] == s.owners[k]
    decreases n
  {
    if n > 0 && s.writesLeft > 0 {
      CreateKeepsOwners(Server(s.owners[s.next := o], s.next + 1, s.writesLeft - 1), n - 1, o, k);
    }
  }

  lemma MarkThenRetireStep(w: Sweep, hash: string, req: Request, k: nat)
    requires KeptHashes(w.kept, w.server) && k in w.server.owners
    ensures var r := MarkThenRetire(w, hash, req);
            k in r.server.owners && OwnerStep(w.server.owners[k], r.server.owners[k], Some(hash))
  {
    var ids := ToMark(w, hash, req.desired);
    var m := MarkOwners(w.server, ids);
    MarkOwnersStep(w.server, ids, k, Some(hash));
    if m.ok {
      forall v | v in w.kept ensures v.id in m.server.owners && m.server.owners[v.id].hash == Some(v.hash) {
        MarkOwnersStep(w.server, ids, v.id, Some(hash));
      }
      var r := RetireOutdated(m.server, w.kept, Current(w, hash), hash, req.pick);
      RetireStep(m.server, w.kept, Current(w, hash), hash, req.pick, k);
      StepTransitive(w.server.owners[k], m.server.owners[k], r.server.owners[k], Some(hash));
    }
  }

  lemma ActStep(w: Sweep, hash: string, req: Request, k: nat)
    requires KeptHashes(w.kept, w.server) && k in w.server.owners && k < w.server.next
    ensures var r := Act(w, hash, req);
            k in r.server.owners && OwnerStep(w.server.owners[k], r.server.owners[k], Some(hash))
  {
    match PlanOf(w, hash, req)
    case Create(n) =>
      CreateKeepsOwners(w.server, n, NewOwner(hash, req.blank, req.now), k);
      FlagStep(w.server.owners[k], w.server.owners[k], Some(hash));
    case MarkRedundant => MarkThenRetireStep(w, hash, req, k);
    case LeaveAsIs => RetireStep(w.server, w.kept, Current(w, hash), hash, req.pick, k);
    case WaitForSync => FlagStep(w.server.owners[k], w.server.owners[k], Some(hash));
    case InvalidState => FlagStep(w.server.owners[k], w.server.owners[k], Some(hash));
  }

  /** Every synchronisation, seen from any existing owner. */
  lemma SyncStep(s: Server, order: seq<nat>, req: Request, k: nat)
    requires Listable(s, order) && k in s.owners && k < s.next
    ensures k in Sync(s, order, req).server.owners
    ensures OwnerStep(s.owners[k], Sync(s, order, req).server.owners[k], req.hash)
  {
    var w := Collect(s, order, req.now);
    KeptIsListed(s, order, req.now);
    CollectStep(s, order, req.now, k, req.hash);
    if w.verdict.Going? && req.hash.Some? {
      CollectKeptHashes(s, order, req.now);
      forall v | v in w.kept ensures v.id in w.server.owners && w.server.owners[v.id].hash == Some(v.hash) {
        CollectStep(s, order, req.now, v.id, req.hash);
      }
      ActStep(w, req.hash.value, req, k);
      StepTransitive(s.owners[k], w.server.owners[k], Act(w, req.hash.value, req).server.owners[k], req.hash);
    }
  }

  /** What follows the sweep takes nothing back that the sweep did. */
  lemma SyncAfterSweep(s: Server, order: seq<nat>, req: Request, k: nat)
    requires Listable(s, order) && k in s.owners && k < s.next
    ensures k in Sync(s, order, req).server.owners
    ensures Advances(Collect(s, order, req.now).server.owners[k], Sync(s, order, req).server.owners[k])
  {
    var w := Collect(s, order, req.now);
    KeptIsListed(s, order, req.now);
    CollectStep(s, order, req.now, k, req.hash);
    if w.verdict.Going? && req.hash.Some? {
      CollectKeptHashes(s, order, req.now);
      forall v | v in w.kept ensures v.id in w.server.owners && w.server.owners[v.id].hash == Some(v.hash) {
        CollectStep(s, order, req.now, v.id, req.hash);
      }
      ActStep(w, req.hash.value, req, k);
    }
  }
}
