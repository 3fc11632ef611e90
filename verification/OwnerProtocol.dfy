/** One synchronisation of the runner pod owners, as specification functions:
    the sweep over the live owners, then creation, marking or retirement. */
module OwnerProtocol {
  import opened Basics
  import opened Cluster
  import opened StableOrder
  import opened Allocation
  import PodProtocol

  // ---- What an owner's pods are doing ----

  datatype Activity = Finished | Active | TimedOut | Terminating | Starting

  function Classify(p: Pod, now: int): Activity {
    if Stopped(p.status) then Finished
    else if p.status.phase.Running? then
      if p.marks.id.NoId? && p.status.readySince.Some? && p.status.readySince.value + REGISTRATION_TIMEOUT < now
      then TimedOut else Active
    else if p.deleting then Terminating
    else Starting
  }

  function Count(pods: seq<RunnerPod>, a: Activity, now: int): (n: nat)
    ensures n <= |pods|
  {
    if pods == [] then 0
    else Count(pods[..|pods| - 1], a, now) + (if Classify(pods[|pods| - 1].pod, now) == a then 1 else 0)
  }

  predicate AllStopped(pods: seq<RunnerPod>) {
    forall i :: 0 <= i < |pods| ==> Stopped(pods[i].pod.status)
  }

  /** Unregistered, or already being deleted. */
  predicate SafeToDelete(p: Pod) { p.marks.complete || p.deleting }

  predicate AllSafe(pods: seq<RunnerPod>) {
    forall i :: 0 <= i < |pods| ==> SafeToDelete(pods[i].pod)
  }

  function ViewOf(id: nat, o: Owner, now: int): View
    requires o.hash.Some?
  {
    View(id, o.hash.value, o.created, |o.pods|, Count(o.pods, Active, now), Count(o.pods, Starting, now))
  }

  // ---- The sweep ----

  /** `Halted` ends the synchronisation early; `Crashed` is the nil dereference on an
      owner without a template hash. */
  datatype Verdict = Going | Halted | Crashed

  datatype Sweep = Sweep(server: Server, kept: seq<View>, lastSync: Option<int>, verdict: Verdict)

  function Put(s: Server, id: nat, o: Owner): Server
    requires s.writesLeft > 0
  {
    s.(owners := s.owners[id := o], writesLeft := s.writesLeft - 1)
  }

  /** One API write to an owner during the sweep; a failed write halts it. */
  function Update(w: Sweep, id: nat, o: Owner): Sweep {
    if w.server.writesLeft == 0 then w.(verdict := Halted) else w.(server := Put(w.server, id, o))
  }

  function Visit(w: Sweep, id: nat, now: int): Sweep
    requires id in w.server.owners
  {
    var o := w.server.owners[id];
    if !w.verdict.Going? then w
    else if o.hash.None? then w.(verdict := Crashed)
    else if o.hash.value == "" then w.(verdict := Halted)
    else if o.deleting then w
    else if o.complete then Update(w, id, o.(deleting := true))
    else if o.requested && AllSafe(o.pods) then Update(w, id, o.(complete := true))
    else if o.pods != [] && AllStopped(o.pods) then Update(w, id, o.(deleting := true)).(verdict := Halted)
    else if !Synced(o.status) then w.(verdict := Halted)
    else w.(kept := w.kept + [ViewOf(id, o, now)],
            lastSync := if o.syncTime.Some? then Latest(w.lastSync, o.syncTime.value) else w.lastSync)
  }

  /** The owners are listed from one consistent read. */
  predicate Listable(s: Server, order: seq<nat>) {
    forall i :: 0 <= i < |order| ==> order[i] in s.owners
  }

  function Collect(s: Server, order: seq<nat>, now: int): (w: Sweep)
    requires Listable(s, order)
    ensures w.server.owners.Keys == s.owners.Keys && w.server.next == s.next
  {
    if order == [] then Sweep(s, [], None, Going)
    else
      var w := Collect(s, order[..|order| - 1], now);
      assert order[|order| - 1] in s.owners;
      Visit(w, order[|order| - 1], now)
  }

  /** Once halted, a sweep stays as it is. */
  lemma {:induction false} HaltedStays(s: Server, order: seq<nat>, n: nat, now: int)
    requires Listable(s, order) && n <= |order| && !Collect(s, order[..n], now).verdict.Going?
    ensures Collect(s, order, now) == Collect(s, order[..n], now)
    decreases |order| - n
  {
    if n == |order| {
      assert order[..n] == order;
    } else {
      assert order[..n + 1][..n] == order[..n];
      assert order[n] in s.owners;
      HaltedStays(s, order, n + 1, now);
    }
  }

  // ---- Acting on the plan ----

  /** `create` builds owners of this template; `pick` is the accident of map order. */
  datatype Request = Request(
    hash: Option<string>, blank: OwnerStatus, desired: int, effective: Option<int>,
    ephemeral: bool, now: int, pick: nat)

  function NewOwner(hash: string, blank: OwnerStatus, now: int): Owner {
    Owner(Some(hash), now, Some(now), false, false, false, blank, [])
  }

  function CreateOwners(s: Server, n: nat, o: Owner): Server
    decreases n
  {
    if n == 0 || s.writesLeft == 0 then s
    else CreateOwners(Server(s.owners[s.next := o], s.next + 1, s.writesLeft - 1), n - 1, o)
  }

  datatype MarkedPods = MarkedPods(pods: seq<RunnerPod>, writes: nat, ok: bool)

  function MarkPods(pods: seq<RunnerPod>, writes: nat): (m: MarkedPods)
    ensures |m.pods| == |pods|
  {
    if pods == [] then MarkedPods([], writes, true)
    else
      var m, rp := MarkPods(pods[..|pods| - 1], writes), pods[|pods| - 1];
      if !m.ok then m.(pods := m.pods + [rp])
      else
        var last := PodProtocol.AnnotateOnce(PodProtocol.Work(rp, m.writes), RequestMark);
        MarkedPods(m.pods + [last.work.rp], last.work.writes, last.ok)
  }

  datatype Marked = Marked(server: Server, ok: bool)

  function MarkOwner(s: Server, id: nat): Marked
    requires id in s.owners
  {
    var o := s.owners[id];
    if o.requested then Marked(s, true)
    else
      var m := MarkPods(o.pods, s.writesLeft);
      var done := m.ok && m.writes > 0;
      Marked(s.(owners := s.owners[id := o.(pods := m.pods, requested := done)],
                writesLeft := if done then m.writes - 1 else m.writes),
             done)
  }

  function MarkOwners(s: Server, ids: seq<nat>): (m: Marked)
    requires Listable(s, ids)
    ensures m.server.owners.Keys == s.owners.Keys && m.server.next == s.next
  {
    if ids == [] then Marked(s, true)
    else
      var m := MarkOwners(s, ids[..|ids| - 1]);
      assert ids[|ids| - 1] in s.owners;
      if m.ok then MarkOwner(m.server, ids[|ids| - 1]) else m
  }

  function Having(vs: seq<View>, hash: string, equal: bool): (r: seq<View>)
    ensures forall v :: v in r <==> v in vs && (v.hash == hash) == equal
  {
    if vs == [] then []
    else
      var last := vs[|vs| - 1];
      assert vs == vs[..|vs| - 1] + [last];
      Having(vs[..|vs| - 1], hash, equal) + (if (last.hash == hash) == equal then [last] else [])
  }

  /** `current` is reported only when the synchronisation ran to its end. */
  datatype Outcome = Outcome(server: Server, current: Option<seq<View>>)

  /** One owner of another template is deleted per synchronisation. */
  function RetireOutdated(s: Server, kept: seq<View>, current: seq<View>, hash: string, pick: nat): Outcome
    requires forall v :: v in kept ==> v.id in s.owners
  {
    var outdated := Having(kept, hash, false);
    if outdated == [] then Outcome(s, Some(current))
    else
      var v := outdated[pick % |outdated|];
      assert v in kept;
      if s.writesLeft == 0 then Outcome(s, None)
      else Outcome(Put(s, v.id, s.owners[v.id].(deleting := true)), None)
  }

  function Ids(vs: seq<View>, indices: seq<nat>): (r: seq<nat>)
    requires forall k :: 0 <= k < |indices| ==> indices[k] < |vs|
    ensures |r| == |indices| && forall k :: 0 <= k < |r| ==> r[k] == vs[indices[k]].id
  {
    if indices == [] then []
    else Ids(vs, indices[..|indices| - 1]) + [vs[indices[|indices| - 1]].id]
  }

  lemma IdsListed(vs: seq<View>, indices: seq<nat>, s: Server)
    requires forall k :: 0 <= k < |indices| ==> indices[k] < |vs|
    requires forall v :: v in vs ==> v.id in s.owners
    ensures Listable(s, Ids(vs, indices))
  {
    forall k | 0 <= k < |indices| ensures Ids(vs, indices)[k] in s.owners {
      assert vs[indices[k]] in vs;
    }
  }

  function Current(w: Sweep, hash: string): seq<View> {
    StableSort(Having(w.kept, hash, true), CreatedAt)
  }

  lemma {:induction false} KeptIsListed(s: Server, order: seq<nat>, now: int)
    requires Listable(s, order)
    ensures forall v :: v in Collect(s, order, now).kept ==> v.id in s.owners
  {
    if order != [] {
      KeptIsListed(s, order[..|order| - 1], now);
      assert order[|order| - 1] in s.owners;
    }
  }

  lemma CurrentIsKept(w: Sweep, hash: string)
    ensures forall v :: v in Current(w, hash) <==> v in w.kept && v.hash == hash
  {
    StableSortIsPermutation(Current(w, hash), Having(w.kept, hash, true), CreatedAt);
  }

  /** The owners to mark on a scale-down. */
  function ToMark(w: Sweep, hash: string, desired: int): (ids: seq<nat>)
    requires forall v :: v in w.kept ==> v.id in w.server.owners
    ensures Listable(w.server, ids)
  {
    CurrentIsKept(w, hash);
    IdsListed(Current(w, hash), Redundant(Current(w, hash), desired, 0), w.server);
    Ids(Current(w, hash), Redundant(Current(w, hash), desired, 0))
  }

  function PlanOf(w: Sweep, hash: string, req: Request): Plan {
    Decide(Current(w, hash), req.desired, req.ephemeral, w.lastSync, req.effective, req.now)
  }

  function MarkThenRetire(w: Sweep, hash: string, req: Request): Outcome
    requires forall v :: v in w.kept ==> v.id in w.server.owners
  {
    var m := MarkOwners(w.server, ToMark(w, hash, req.desired));
    if m.ok then RetireOutdated(m.server, w.kept, Current(w, hash), hash, req.pick) else Outcome(m.server, None)
  }

  /** What follows the sweep once it has kept some owners. */
  function Act(w: Sweep, hash: string, req: Request): Outcome
    requires forall v :: v in w.kept ==> v.id in w.server.owners
  {
    match PlanOf(w, hash, req)
    case Create(n) => Outcome(CreateOwners(w.server, n, NewOwner(hash, req.blank, req.now)), None)
    case MarkRedundant => MarkThenRetire(w, hash, req)
    case LeaveAsIs => RetireOutdated(w.server, w.kept, Current(w, hash), hash, req.pick)
    case WaitForSync => Outcome(w.server, None)
    case InvalidState => Outcome(w.server, None)
  }

  function Sync(s: Server, order: seq<nat>, req: Request): Outcome
    requires Listable(s, order)
  {
    var w := Collect(s, order, req.now);
    KeptIsListed(s, order, req.now);
    if !w.verdict.Going? || req.hash.None? then Outcome(w.server, None)
    else Act(w, req.hash.value, req)
  }
}
