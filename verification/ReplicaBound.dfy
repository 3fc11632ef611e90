/** Never too many runners: with one pod per owner and a constant goal, the live
    owners that are not unregistered never outnumber the desired replicas. */
module ReplicaBound {
  import opened Basics
  import opened Cluster
  import opened StableOrder
  import opened Allocation
  import opened OwnerProtocol
  import opened OwnerSteps
  import opened Termination
  import PodProtocol

  /** What every synchronisation of the run asks for. */
  datatype Goal = Goal(hash: string, desired: nat, blank: OwnerStatus)

  ghost function Live(s: Server): set<nat> {
    set k | k in s.owners && !s.owners[k].deleting && !s.owners[k].complete
  }

  /** One template, at most one pod, and an owner reports itself synced only once its
      pod exists; its pod is not deleted before it is. */
  predicate OneRunner(o: Owner, g: Goal) {
    && o.hash == Some(g.hash) && |o.pods| <= 1
    && (Synced(o.status) && !o.deleting ==> |o.pods| == 1)
    && (|o.pods| == 1 && o.pods[0].pod.deleting ==> o.deleting)
  }

  ghost predicate Uniform(s: Server, g: Goal) {
    Named(s) && forall k :: k in s.owners ==> OneRunner(s.owners[k], g)
  }

  /** No pod has waited too long for its registration. */
  ghost predicate NoTimeout(s: Server, now: int) {
    forall k, i :: k in s.owners && 0 <= i < |s.owners[k].pods| ==> !Classify(s.owners[k].pods[i].pod, now).TimedOut?
  }

  /** The steps of a run with this goal: complete listings, one pod per owner,
      truthful owner status, no outside deletion. */
  ghost predicate Steady(s: Server, a: Action, g: Goal) {
    match a
    case Synchronise(order, req, _) =>
      && req.hash == Some(g.hash) && req.desired == g.desired && req.blank == g.blank
      && (forall k :: k in s.owners && !s.owners[k].deleting ==> k in order)
      && NoTimeout(s, req.now)
    case CreatePod(k, _) => k in s.owners ==> s.owners[k].pods == []
    case ReportOwner(k, status) => k in s.owners && Synced(status) ==> s.owners[k].pods != []
    case Happen(_, _, e) => !e.OutsideDelete?
    case _ => true
  }

  lemma AdvancesKeepsOneRunner(a: Owner, b: Owner, g: Goal)
    requires Advances(a, b) && OneRunner(a, g)
    ensures OneRunner(b, g)
  {
    if |a.pods| == 1 {
      assert PodAdvances(a.pods[0], b.pods[0]);
    }
  }

  // ---- What the sweep keeps ----

  /** A kept owner stands for exactly one runner that runs or is about to. */
  lemma KeptWeighsOne(o: Owner, g: Goal, now: int)
    requires OneRunner(o, g) && !o.deleting && Synced(o.status) && !AllStopped(o.pods)
    requires forall i :: 0 <= i < |o.pods| ==> !Classify(o.pods[i].pod, now).TimedOut?
    ensures Count(o.pods, Active, now) + Count(o.pods, Starting, now) == 1
  {
    assert o.pods[..0] == [];
  }

  ghost predicate WeighOne(vs: seq<View>) {
    forall v :: v in vs ==> v.running + v.pending == 1
  }

  function IdSet(vs: seq<View>): (r: set<nat>)
    ensures |r| <= |vs|
    ensures forall v :: v in vs ==> v.id in r
  {
    if vs == [] then {} else IdSet(vs[1..]) + {vs[0].id}
  }

  /** Pods only gain request marks during a sweep, so activities stand still. */
  lemma SweepKeepsActivity(s: Server, order: seq<nat>, k: nat, now: int)
    requires Listable(s, order) && k in s.owners && NoTimeout(s, now)
    ensures forall i :: 0 <= i < |Collect(s, order, now).server.owners[k].pods| ==>
              !Classify(Collect(s, order, now).server.owners[k].pods[i].pod, now).TimedOut?
  {
    CollectStep(s, order, now, k, None);
    var a, b := s.owners[k], Collect(s, order, now).server.owners[k];
    forall i | 0 <= i < |b.pods| ensures !Classify(b.pods[i].pod, now).TimedOut? {
      assert PodAdvances(a.pods[i], b.pods[i]);
      assert !Classify(a.pods[i].pod, now).TimedOut?;
    }
  }

  lemma {:induction false} SweepWeighs(s: Server, order: seq<nat>, now: int, g: Goal)
    requires Listable(s, order) && Uniform(s, g) && NoTimeout(s, now)
    ensures WeighOne(Collect(s, order, now).kept)
  {
    if order != [] {
      var id, before := order[|order| - 1], order[..|order| - 1];
      assert id in s.owners;
      SweepWeighs(s, before, now, g);
      CollectStep(s, before, now, id, None);
      SweepKeepsActivity(s, before, id, now);
      var o := Collect(s, before, now).server.owners[id];
      AdvancesKeepsOneRunner(s.owners[id], o, g);
      if !o.deleting && Synced(o.status) && !AllStopped(o.pods) {
        KeptWeighsOne(o, g, now);
      }
    }
  }

  /** An owner the sweep went past is out of the count or among the kept. */
  ghost predicate Accounted(w: Sweep, k: nat) {
    k in w.server.owners && (w.server.owners[k].deleting || w.server.owners[k].complete || k in IdSet(w.kept))
  }

  lemma IdSetGrows(vs: seq<View>, v: View)
    ensures IdSet(vs) <= IdSet(vs + [v])
  {
    if vs != [] {
      assert (vs + [v])[1..] == vs[1..] + [v];
      IdSetGrows(vs[1..], v);
    }
  }

  lemma VisitAccounts(w: Sweep, id: nat, now: int, k: nat)
    requires id in w.server.owners && Visit(w, id, now).verdict.Going?
    requires k == id || Accounted(w, k)
    ensures Accounted(Visit(w, id, now), k)
  {
    var o := w.server.owners[id];
    if o.hash.Some? {
      var v := ViewOf(id, o, now);
      IdSetGrows(w.kept, v);
      assert v in w.kept + [v];
    }
  }

  lemma {:induction false} SweepAccounts(s: Server, order: seq<nat>, now: int, k: nat)
    requires Listable(s, order) && Collect(s, order, now).verdict.Going? && k in order
    ensures Accounted(Collect(s, order, now), k)
  {
    var id, before := order[|order| - 1], order[..|order| - 1];
    assert id in s.owners;
    assert order == before + [id];
    if k != id {
      SweepAccounts(s, before, now, k);
    }
    VisitAccounts(Collect(s, before, now), id, now, k);
  }

  // ---- Counting ----

  lemma {:induction false} WeightIsLength(vs: seq<View>)
    requires WeighOne(vs)
    ensures MaybeRunning(vs) == |vs|
  {
    if vs != [] {
      assert vs[0] in vs;
      assert forall v :: v in vs[1..] ==> v in vs;
      WeightIsLength(vs[1..]);
    }
  }

  lemma {:induction false} HavingAll(vs: seq<View>, hash: string)
    requires forall v :: v in vs ==> v.hash == hash
    ensures Having(vs, hash, true) == vs
  {
    if vs != [] {
      assert vs == vs[..|vs| - 1] + [vs[|vs| - 1]];
      HavingAll(vs[..|vs| - 1], hash);
    }
  }

  lemma CurrentWeighs(w: Sweep, g: Goal)
    requires WeighOne(w.kept) && forall v :: v in w.kept ==> v.hash == g.hash
    ensures MaybeRunning(Current(w, g.hash)) == |w.kept|
  {
    HavingAll(w.kept, g.hash);
    StableSortIsPermutation(Current(w, g.hash), w.kept, CreatedAt);
    WeightIsLength(Current(w, g.hash));
  }

  lemma SubsetSize(a: set<nat>, b: set<nat>)
    requires a <= b
    ensures |a| <= |b|
  {
    assert b == a + (b - a);
  }

  lemma {:induction false} CreateAdds(s: Server, n: nat, o: Owner)
    ensures |Live(CreateOwners(s, n, o))| <= |Live(s)| + n
    decreases n
  {
    if n > 0 && s.writesLeft > 0 {
      var s' := Server(s.owners[s.next := o], s.next + 1, s.writesLeft - 1);
      SubsetSize(Live(s'), Live(s) + {s.next});
      CreateAdds(s', n - 1, o);
    }
  }

  // ---- One synchronisation ----

  lemma SweepKeepsHash(s: Server, order: seq<nat>, now: int, g: Goal)
    requires Listable(s, order) && Uniform(s, g)
    ensures forall v :: v in Collect(s, order, now).kept ==> v.hash == g.hash
  {
    CollectKeptHashes(s, order, now);
    forall v | v in Collect(s, order, now).kept ensures v.hash == g.hash {
      assert OneRunner(s.owners[v.id], g);
    }
  }

  /** After a sweep that ran to its end the kept owners cover the live ones. */
  lemma SweepCoversLive(s: Server, order: seq<nat>, now: int)
    requires Listable(s, order) && Collect(s, order, now).verdict.Going?
    requires forall k :: k in s.owners && !s.owners[k].deleting ==> k in order
    ensures |Live(Collect(s, order, now).server)| <= |Collect(s, order, now).kept|
  {
    var w := Collect(s, order, now);
    forall k | k in Live(w.server) ensures k in IdSet(w.kept) {
      CollectStep(s, order, now, k, None);
      SweepAccounts(s, order, now, k);
    }
    SubsetSize(Live(w.server), IdSet(w.kept));
  }

  /** A synchronisation that creates owners creates exactly the deficit. */
  lemma CreationFillsTheGap(s: Server, order: seq<nat>, req: Request, g: Goal)
    requires Listable(s, order) && Uniform(s, g) && NoTimeout(s, req.now)
    requires req.hash == Some(g.hash) && req.desired == g.desired
    requires forall k :: k in s.owners && !s.owners[k].deleting ==> k in order
    requires Collect(s, order, req.now).verdict.Going? && PlanOf(Collect(s, order, req.now), g.hash, req).Create?
    ensures |Live(Sync(s, order, req).server)| <= g.desired
  {
    var w := Collect(s, order, req.now);
    KeptIsListed(s, order, req.now);
    SweepWeighs(s, order, req.now, g);
    SweepKeepsHash(s, order, req.now, g);
    SweepCoversLive(s, order, req.now);
    CurrentWeighs(w, g);
    CreateAdds(w.server, PlanOf(w, g.hash, req).count, NewOwner(g.hash, req.blank, req.now));
  }

  lemma OnlyCreationAdds(w: Sweep, hash: string, req: Request)
    requires (forall v :: v in w.kept ==> v.id in w.server.owners) && !PlanOf(w, hash, req).Create?
    ensures Act(w, hash, req).server.owners.Keys == w.server.owners.Keys
  {
  }

  lemma SyncOnlyCreates(s: Server, order: seq<nat>, req: Request, k: nat)
    requires Listable(s, order) && req.hash.Some? && k in Sync(s, order, req).server.owners && k !in s.owners
    ensures Collect(s, order, req.now).verdict.Going? && PlanOf(Collect(s, order, req.now), req.hash.value, req).Create?
  {
    KeptIsListed(s, order, req.now);
    var w := Collect(s, order, req.now);
    if !PlanOf(w, req.hash.value, req).Create? {
      OnlyCreationAdds(w, req.hash.value, req);
    }
  }

  lemma SyncBound(s: Server, order: seq<nat>, req: Request, writes: nat, g: Goal)
    requires Uniform(s, g) && |Live(s)| <= g.desired
    requires Possible(s, Synchronise(order, req, writes)) && Steady(s, Synchronise(order, req, writes), g)
    ensures |Live(After(s, Synchronise(order, req, writes)))| <= g.desired
  {
    var s0 := s.(writesLeft := writes);
    var s1 := Sync(s0, order, req).server;
    if exists k :: k in s1.owners && k !in s.owners {
      var k :| k in s1.owners && k !in s.owners;
      SyncOnlyCreates(s0, order, req, k);
      CreationFillsTheGap(s0, order, req, g);
    } else {
      forall k | k in Live(s1) ensures k in Live(s) {
        SyncStep(s0, order, req, k);
      }
      SubsetSize(Live(s1), Live(s));
    }
  }

  // ---- Runs ----

  lemma StepKeepsOneRunner(s: Server, a: Action, g: Goal, k: nat)
    requires Uniform(s, g) && !Synced(g.blank) && Possible(s, a) && Steady(s, a, g) && k in After(s, a).owners
    ensures OneRunner(After(s, a).owners[k], g)
  {
    match a
    case Synchronise(order, req, writes) =>
      if k in s.owners {
        SyncStep(s.(writesLeft := writes), order, req, k);
        AdvancesKeepsOneRunner(s.owners[k], After(s, a).owners[k], g);
      } else {
        SyncNewOwners(s.(writesLeft := writes), order, req, k);
      }
    case ReconcilePod(j, i, replies, writes) =>
    case Happen(_, _, _) =>
    case CreatePod(_, _) =>
    case PodGone(_, _) =>
    case OwnerGone(_) =>
    case ReportOwner(_, _) =>
  }

  lemma StepKeepsBound(s: Server, a: Action, g: Goal)
    requires Uniform(s, g) && Possible(s, a) && Steady(s, a, g) && |Live(s)| <= g.desired
    ensures |Live(After(s, a))| <= g.desired
  {
    if a.Synchronise? {
      SyncBound(s, a.order, a.req, a.writes, g);
    } else {
      SubsetSize(Live(After(s, a)), Live(s));
    }
  }

  /** From an empty start the live owners never outnumber the desired replicas. */
  lemma {:induction false} NeverTooManyRunners(states: seq<Server>, actions: seq<Action>, g: Goal, n: nat)
    requires Run(states, actions) && n < |states| && states[0].owners == map[] && !Synced(g.blank)
    requires forall i :: 0 <= i < |actions| ==> Steady(states[i], actions[i], g)
    ensures Uniform(states[n], g) && |Live(states[n])| <= g.desired
  {
    if n == 0 {
      assert Live(states[0]) == {};
    } else {
      var s, a := states[n - 1], actions[n - 1];
      NeverTooManyRunners(states, actions, g, n - 1);
      assert StepAt(states, actions, n - 1) && Steady(s, a, g);
      StepKeepsNames(s, a);
      StepKeepsBound(s, a, g);
      forall k | k in After(s, a).owners ensures OneRunner(After(s, a).owners[k], g) {
        StepKeepsOneRunner(s, a, g, k);
      }
    }
  }

  // ---- The recreation delay ----

  /** Live, and not about to be completed by the next sweep. */
  predicate Staying(o: Owner) {
    !o.deleting && !o.complete && !(o.requested && AllSafe(o.pods))
  }

  /** A sweep that goes to its end leaves such an owner alone and takes note of its
      sync time: otherwise it would have been cut short. */
  lemma {:induction false} SweepSeesSync(s: Server, order: seq<nat>, now: int, k: nat)
    requires Listable(s, order) && Collect(s, order, now).verdict.Going? && k in s.owners && Staying(s.owners[k])
    ensures Collect(s, order, now).server.owners[k] == s.owners[k]
    ensures k in order && s.owners[k].syncTime.Some? ==>
              var last := Collect(s, order, now).lastSync; last.Some? && last.value >= s.owners[k].syncTime.value
  {
    if order != [] {
      var id, before := order[|order| - 1], order[..|order| - 1];
      assert id in s.owners;
      assert order == before + [id];
      SweepSeesSync(s, before, now, k);
      VisitSeesSync(Collect(s, before, now), id, now, k);
    }
  }

  lemma VisitSeesSync(w: Sweep, id: nat, now: int, k: nat)
    requires id in w.server.owners && k in w.server.owners && Visit(w, id, now).verdict.Going?
    requires Staying(w.server.owners[k])
    ensures Visit(w, id, now).server.owners[k] == w.server.owners[k]
    ensures w.lastSync.Some? ==>
              Visit(w, id, now).lastSync.Some? && Visit(w, id, now).lastSync.value >= w.lastSync.value
    ensures k == id && w.server.owners[k].syncTime.Some? ==>
              && Visit(w, id, now).lastSync.Some?
              && Visit(w, id, now).lastSync.value >= w.server.owners[k].syncTime.value
  {
  }

  /** While a live owner that is not yet unregistered was synced after the effective
      time, no synchronisation creates an owner before the recreation delay has passed. */
  lemma NoCreationWithinDelay(s: Server, order: seq<nat>, req: Request, k: nat)
    requires Listable(s, order) && k in order && Staying(s.owners[k])
    requires s.owners[k].syncTime.Some? && req.effective.Some? && req.ephemeral
    requires s.owners[k].syncTime.value > req.effective.value
    requires req.now < s.owners[k].syncTime.value + RECREATION_DELAY
    ensures forall j :: j in Sync(s, order, req).server.owners ==> j in s.owners
  {
    forall j | j in Sync(s, order, req).server.owners ensures j in s.owners {
      if j !in s.owners {
        SyncNewOwners(s, order, req, j);
        SyncOnlyCreates(s, order, req, j);
        SweepSeesSync(s, order, req.now, k);
      }
    }
  }
}
