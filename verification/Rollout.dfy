/** Rolling replacement of the replica sets of a runner deployment. */
module Rollout {
  import opened Basics

  /** What the replica set controller last published in a set's status. */
  datatype Published = Published(replicas: Option<int>, ready: Option<int>, available: Option<int>)

  datatype Spec = Spec(replicas: Option<int>, selector: string, template: string, effective: Option<int>)

  /** `hash` is the template hash label. Creation times have whole seconds and may be
      equal; names are not. */
  datatype ReplicaSet = ReplicaSet(
    name: nat, created: int, hash: Option<string>, spec: Spec, published: Published)

  /** Name and creation time that the API server gives to a new set. */
  datatype Stamp = Stamp(name: nat, time: int)

  /** The set a deployment asks for. */
  datatype Goal = Goal(hash: string, spec: Spec)

  datatype Totals = Totals(available: int, ready: int, desired: int, replicas: int, updated: int)

  /** The sets of one deployment, newest first, and the deployment's status. */
  datatype World = World(sets: seq<ReplicaSet>, status: Option<Totals>)

  datatype Outcome = Finished | RequeueLater | RequeueNow | Failed

  function OrDefault(n: Option<int>, default: int): int { if n.Some? then n.value else default }

  predicate Distinct(sets: seq<ReplicaSet>) {
    forall i, j :: 0 <= i < j < |sets| ==> sets[i].name != sets[j].name
  }

  /** In the order of the source's sort, which leaves sets of the same second in any order. */
  predicate NewestFirst(sets: seq<ReplicaSet>) {
    forall i, j :: 0 <= i < j < |sets| ==> sets[i].created >= sets[j].created
  }

  predicate Avoids(sets: seq<ReplicaSet>, name: nat) {
    forall i :: 0 <= i < |sets| ==> sets[i].name != name
  }

  const FRESH := Published(None, None, None)

  // ---- One reconcile ----

  datatype Stage = Create | Unlabelled | FixSelector | FixReplicas | CleanUp

  function StageOf(sets: seq<ReplicaSet>, g: Goal): Stage {
    if sets == [] then Create
    else if sets[0].hash.None? then Unlabelled
    else if sets[0].hash.value != g.hash then Create
    else if sets[0].spec.selector != g.spec.selector then FixSelector
    else if OrDefault(sets[0].spec.replicas, 1) != OrDefault(g.spec.replicas, 1) then FixReplicas
    else CleanUp
  }

  predicate Ready(s: ReplicaSet) {
    OrDefault(s.published.ready, 0) >= OrDefault(s.spec.replicas, 1)
  }

  predicate Empty(s: ReplicaSet) { s.published.replicas.None? || s.published.replicas.value <= 0 }

  predicate Drained(s: ReplicaSet) { s.spec.replicas == Some(0) }

  function Drain(s: ReplicaSet): ReplicaSet { s.(spec := s.spec.(replicas := Some(0))) }

  /** Sets after some writes, and how many writes the API server would still take. */
  datatype Progress = Progress(sets: seq<ReplicaSet>, left: nat, ok: bool)

  function Prepend(done: seq<ReplicaSet>, p: Progress): Progress { p.(sets := done + p.sets) }

  /** One old set: wait while it drains, drain it while in use, delete it when empty. */
  function CleanSet(s: ReplicaSet, budget: nat): Progress {
    if !Empty(s) && Drained(s) then Progress([s], budget, true)
    else if budget == 0 then Progress([s], 0, false)
    else Progress(if Empty(s) then [] else [Drain(s)], budget - 1, true)
  }

  /** The old sets in turn; the first failed write ends the loop. */
  function CleanOld(olds: seq<ReplicaSet>, budget: nat): Progress {
    if olds == [] then Progress([], budget, true)
    else
      var p := CleanSet(olds[0], budget);
      if p.ok then Prepend(p.sets, CleanOld(olds[1..], p.left)) else Progress(olds, p.left, false)
  }

  function Attempt(sets: seq<ReplicaSet>, written: seq<ReplicaSet>, budget: nat): Progress {
    if budget == 0 then Progress(sets, 0, false) else Progress(written, budget - 1, true)
  }

  function NewSet(g: Goal, at: Stamp): ReplicaSet {
    ReplicaSet(at.name, at.time, Some(g.hash), g.spec, FRESH)
  }

  /** The replica set writes of one reconcile, of which the first `budget` succeed. */
  function Write(sets: seq<ReplicaSet>, g: Goal, at: Stamp, budget: nat): Progress {
    match StageOf(sets, g)
    case Create => Attempt(sets, [NewSet(g, at)] + sets, budget)
    case Unlabelled => Progress(sets, budget, true)
    case FixSelector => Attempt(sets, sets[0 := sets[0].(spec := g.spec)], budget)
    case FixReplicas =>
      var spec := sets[0].spec.(replicas := Some(OrDefault(g.spec.replicas, 1)), effective := g.spec.effective);
      Attempt(sets, sets[0 := sets[0].(spec := spec)], budget)
    case CleanUp =>
      if |sets| > 1 && Ready(sets[0]) then Prepend(sets[..1], CleanOld(sets[1..], budget))
      else Progress(sets, budget, true)
  }

  function SumReplicas(sets: seq<ReplicaSet>): int {
    if sets == [] then 0 else SumReplicas(sets[..|sets| - 1]) + OrDefault(sets[|sets| - 1].published.replicas, 0)
  }

  function SumAvailable(sets: seq<ReplicaSet>): int {
    if sets == [] then 0 else SumAvailable(sets[..|sets| - 1]) + OrDefault(sets[|sets| - 1].published.available, 0)
  }

  function TotalsOf(sets: seq<ReplicaSet>, g: Goal): Totals
    requires sets != []
  {
    Totals(SumAvailable(sets), SumAvailable(sets), OrDefault(g.spec.replicas, 1), SumReplicas(sets),
           OrDefault(sets[0].published.replicas, 0))
  }

  /** The status is patched only at the end of a reconcile that had nothing to create,
      fix or wait for. */
  predicate ReachesStatus(sets: seq<ReplicaSet>, g: Goal, at: Stamp, budget: nat) {
    StageOf(sets, g).CleanUp? && (|sets| > 1 ==> Ready(sets[0])) && Write(sets, g, at, budget).ok
  }

  function Reconcile(w: World, g: Goal, at: Stamp, budget: nat): World {
    var p := Write(w.sets, g, at, budget);
    World(p.sets, if ReachesStatus(w.sets, g, at, budget) && p.left > 0 then Some(TotalsOf(w.sets, g)) else w.status)
  }

  function Reply(w: World, g: Goal, at: Stamp, budget: nat): Outcome {
    var p := Write(w.sets, g, at, budget);
    if !p.ok then Failed
    else if (StageOf(w.sets, g).Create? && w.sets != []) || StageOf(w.sets, g).FixSelector? then RequeueLater
    else if ReachesStatus(w.sets, g, at, budget) && w.status != Some(TotalsOf(w.sets, g)) && p.left == 0 then RequeueNow
    else Finished
  }

  /** Replica set writes that succeed in one reconcile. */
  function Writes(sets: seq<ReplicaSet>, g: Goal, at: Stamp, budget: nat): int {
    budget - Write(sets, g, at, budget).left
  }

  lemma {:induction false} CleanOldLeaves(olds: seq<ReplicaSet>, budget: nat)
    ensures CleanOld(olds, budget).left <= budget
  {
    if olds != [] {
      CleanOldLeaves(olds[1..], CleanSet(olds[0], budget).left);
    }
  }

  // ---- What a reconcile may do to a set ----

  function Named(sets: seq<ReplicaSet>, name: nat): Option<ReplicaSet> {
    if sets == [] then None
    else if sets[0].name == name then Some(sets[0])
    else Named(sets[1..], name)
  }

  lemma {:induction false} NamedAt(sets: seq<ReplicaSet>, k: nat)
    requires Distinct(sets) && k < |sets|
    ensures Named(sets, sets[k].name) == Some(sets[k])
  {
    if k > 0 {
      assert sets[0].name != sets[k].name;
      NamedAt(sets[1..], k - 1);
    }
  }

  lemma {:induction false} NotNamed(sets: seq<ReplicaSet>, name: nat)
    requires Avoids(sets, name)
    ensures Named(sets, name) == None
  {
    if sets != [] {
      NotNamed(sets[1..], name);
    }
  }

  lemma {:induction false} CleanOldAvoids(olds: seq<ReplicaSet>, budget: nat, name: nat)
    requires Avoids(olds, name)
    ensures Avoids(CleanOld(olds, budget).sets, name)
  {
    if olds != [] {
      CleanOldAvoids(olds[1..], CleanSet(olds[0], budget).left, name);
    }
  }

  lemma {:induction false} CleanOldDistinct(olds: seq<ReplicaSet>, budget: nat)
    requires Distinct(olds)
    ensures Distinct(CleanOld(olds, budget).sets)
  {
    if olds != [] {
      var left := CleanSet(olds[0], budget).left;
      CleanOldDistinct(olds[1..], left);
      assert Avoids(olds[1..], olds[0].name);
      CleanOldAvoids(olds[1..], left, olds[0].name);
    }
  }

  ghost predicate Fate(s: ReplicaSet, after: Option<ReplicaSet>) {
    || after == Some(s)
    || (after == Some(Drain(s)) && !Empty(s))
    || (after == None && Empty(s))
  }

  lemma {:induction false} FirstFate(olds: seq<ReplicaSet>, budget: nat)
    requires Distinct(olds) && olds != []
    ensures Fate(olds[0], Named(CleanOld(olds, budget).sets, olds[0].name))
  {
    var p := CleanSet(olds[0], budget);
    if p.ok && p.sets == [] {
      var rest := CleanOld(olds[1..], p.left).sets;
      assert Avoids(olds[1..], olds[0].name);
      CleanOldAvoids(olds[1..], p.left, olds[0].name);
      NotNamed(rest, olds[0].name);
      assert [] + rest == rest;
    }
  }

  lemma {:induction false} NamedBeyond(first: seq<ReplicaSet>, rest: seq<ReplicaSet>, name: nat)
    requires |first| <= 1 && Avoids(first, name)
    ensures Named(first + rest, name) == Named(rest, name)
  {
    if first == [] {
      assert first + rest == rest;
    } else {
      assert (first + rest)[1..] == rest;
    }
  }

  /** An old set stays as it is, is drained if in use, or is deleted if empty. */
  lemma {:induction false} CleanOldFate(olds: seq<ReplicaSet>, budget: nat, k: nat)
    requires Distinct(olds) && k < |olds|
    ensures Fate(olds[k], Named(CleanOld(olds, budget).sets, olds[k].name))
  {
    var p := CleanSet(olds[0], budget);
    if k == 0 {
      FirstFate(olds, budget);
    } else if p.ok {
      assert olds[0].name != olds[k].name;
      CleanOldFate(olds[1..], p.left, k - 1);
      NamedBeyond(p.sets, CleanOld(olds[1..], p.left).sets, olds[k].name);
    } else {
      NamedAt(olds, k);
    }
  }

  /** A set older than the newest is touched only while the newest has the wanted hash,
      selector and count and is fully ready; it is deleted only when empty. */
  lemma {:induction false} OldSetsFate(sets: seq<ReplicaSet>, g: Goal, at: Stamp, budget: nat, k: nat)
    requires Distinct(sets) && 0 < k < |sets| && Avoids(sets, at.name)
    ensures var after := Named(Write(sets, g, at, budget).sets, sets[k].name);
            Fate(sets[k], after) && (after != Some(sets[k]) ==> StageOf(sets, g).CleanUp? && Ready(sets[0]))
  {
    NamedAt(sets, k);
    assert sets[0].name != sets[k].name && at.name != sets[k].name;
    match StageOf(sets, g)
    case Create => assert ([NewSet(g, at)] + sets)[1..] == sets;
    case CleanUp =>
      if Ready(sets[0]) {
        CleanOldFate(sets[1..], budget, k - 1);
        var rest := CleanOld(sets[1..], budget).sets;
        assert (sets[..1] + rest)[1..] == rest;
      }
    case Unlabelled =>
    case _ =>
      var spec := Write(sets, g, at, 1).sets[0].spec;
      assert sets[0 := sets[0].(spec := spec)][1..] == sets[1..];
  }

  /** With a write for every old set none of them is missed: exactly the empty go. */
  lemma {:induction false} CleanOldDeletes(olds: seq<ReplicaSet>, budget: nat, k: nat)
    requires Distinct(olds) && k < |olds| <= budget
    ensures Named(CleanOld(olds, budget).sets, olds[k].name).None? <==> Empty(olds[k])
  {
    var p := CleanSet(olds[0], budget);
    var rest := CleanOld(olds[1..], p.left).sets;
    if k > 0 {
      assert olds[0].name != olds[k].name;
      CleanOldDeletes(olds[1..], p.left, k - 1);
      NamedBeyond(p.sets, rest, olds[k].name);
    } else if p.sets == [] {
      assert Avoids(olds[1..], olds[0].name);
      CleanOldAvoids(olds[1..], p.left, olds[0].name);
      NotNamed(rest, olds[0].name);
      assert [] + rest == rest;
    }
  }

  /** Every reconcile whose writes succeed deletes an old set exactly when the newest is
      the wanted one and fully ready and the old one's published replicas are zero or
      unset, whether or not it was drained before. */
  lemma {:induction false} DeletionIgnoresDraining(sets: seq<ReplicaSet>, g: Goal, at: Stamp, budget: nat, k: nat)
    requires Distinct(sets) && Avoids(sets, at.name) && 0 < k < |sets| <= budget
    ensures Named(Write(sets, g, at, budget).sets, sets[k].name).None? <==>
              StageOf(sets, g).CleanUp? && Ready(sets[0]) && Empty(sets[k])
  {
    OldSetsFate(sets, g, at, budget, k);
    if StageOf(sets, g).CleanUp? && Ready(sets[0]) {
      assert sets[0].name != sets[k].name;
      CleanOldDeletes(sets[1..], budget, k - 1);
      NamedBeyond(sets[..1], CleanOld(sets[1..], budget).sets, sets[k].name);
    }
  }

  /** The newest set is never deleted and never loses its hash. */
  lemma {:induction false} NewestStays(sets: seq<ReplicaSet>, g: Goal, at: Stamp, budget: nat)
    requires sets != [] && at.name != sets[0].name
    ensures var after := Write(sets, g, at, budget).sets;
            && Named(after, sets[0].name).Some?
            && Named(after, sets[0].name).value.hash == sets[0].hash
  {
    if StageOf(sets, g).Create? {
      assert ([NewSet(g, at)] + sets)[1..] == sets;
    }
  }

  /** The effective time of a deployment reaches a newest set of the wanted hash only
      together with another change: a new effective time alone is not handed on. */
  lemma EffectiveTimeNeedsAnotherChange(sets: seq<ReplicaSet>, g: Goal, at: Stamp, budget: nat)
    requires sets != [] && sets[0].hash == Some(g.hash) && budget > 0
    ensures Write(sets, g, at, budget).sets[0].spec.effective == g.spec.effective <==>
              || sets[0].spec.effective == g.spec.effective
              || sets[0].spec.selector != g.spec.selector
              || OrDefault(sets[0].spec.replicas, 1) != OrDefault(g.spec.replicas, 1)
  {
  }

  lemma {:induction false} WriteKeepsNames(sets: seq<ReplicaSet>, g: Goal, at: Stamp, budget: nat)
    requires Distinct(sets) && Avoids(sets, at.name)
    ensures Distinct(Write(sets, g, at, budget).sets)
  {
    if StageOf(sets, g).CleanUp? && |sets| > 1 {
      CleanOldDistinct(sets[1..], budget);
      assert Avoids(sets[1..], sets[0].name);
      CleanOldAvoids(sets[1..], budget, sets[0].name);
    }
  }

  // ---- Quiescence ----

  /** One set, of the wanted hash, selector and count. */
  predicate Converged(sets: seq<ReplicaSet>, g: Goal) {
    |sets| == 1 && StageOf(sets, g).CleanUp?
  }

  /** The runners have followed the specs: the newest set is ready, drained ones are empty. */
  predicate Settled(sets: seq<ReplicaSet>) {
    && (sets != [] ==> Ready(sets[0]))
    && forall i :: 0 < i < |sets| && Drained(sets[i]) ==> Empty(sets[i])
  }

  lemma {:induction false} CleanOldWrites(olds: seq<ReplicaSet>, budget: nat)
    requires olds != [] && budget > 0 && (Drained(olds[0]) ==> Empty(olds[0]))
    ensures CleanOld(olds, budget).left < budget
  {
    CleanOldLeaves(olds[1..], budget - 1);
  }

  /** Once the runners have followed, a reconcile writes no set exactly when the
      rollout is complete or its newest set lacks a hash. */
  lemma {:induction false} QuietIffConverged(sets: seq<ReplicaSet>, g: Goal, at: Stamp, budget: nat)
    requires Settled(sets) && budget > 0
    ensures Writes(sets, g, at, budget) == 0 <==> Converged(sets, g) || StageOf(sets, g).Unlabelled?
  {
    if StageOf(sets, g).CleanUp? && |sets| > 1 {
      assert Drained(sets[1]) ==> Empty(sets[1]);
      CleanOldWrites(sets[1..], budget);
    }
  }

  /** A complete rollout stays so: no reconcile writes a set, and after one that could
      patch the status the next has nothing to patch. */
  lemma ConvergedIsStable(w: World, g: Goal, at: Stamp, budget: nat)
    requires Converged(w.sets, g)
    ensures Writes(w.sets, g, at, budget) == 0
    ensures Reconcile(w, g, at, budget).sets == w.sets
    ensures budget > 0 ==>
              var after := Reconcile(w, g, at, budget);
              && after.status == Some(TotalsOf(w.sets, g))
              && forall b: nat :: Reconcile(after, g, at, b) == after && Reply(after, g, at, b) == Finished
  {
  }

  // ---- Status and reply ----

  lemma {:induction false} SumsFromFront(s: ReplicaSet, olds: seq<ReplicaSet>)
    ensures SumReplicas([s] + olds) == OrDefault(s.published.replicas, 0) + SumReplicas(olds)
    ensures SumAvailable([s] + olds) == OrDefault(s.published.available, 0) + SumAvailable(olds)
  {
    if olds == [] {
      assert [s] + olds == [s] && [s][..0] == [];
    } else {
      SumsFromFront(s, olds[..|olds| - 1]);
      assert ([s] + olds)[..|olds|] == [s] + olds[..|olds| - 1];
    }
  }

  /** Each set counts with the replicas and the available replicas it has published, the
      newest also as updated; ready are the available ones. */
  lemma {:induction false} TotalsAdd(s: ReplicaSet, olds: seq<ReplicaSet>, g: Goal)
    ensures var t := TotalsOf([s] + olds, g);
            var rest := if olds == [] then Totals(0, 0, 0, 0, 0) else TotalsOf(olds, g);
            && t.replicas == OrDefault(s.published.replicas, 0) + rest.replicas
            && t.available == OrDefault(s.published.available, 0) + rest.available && t.ready == t.available
            && t.updated == OrDefault(s.published.replicas, 0) && t.desired == OrDefault(g.spec.replicas, 1)
  {
    SumsFromFront(s, olds);
  }

  lemma {:induction false} CleanOldSucceeds(olds: seq<ReplicaSet>, budget: nat)
    requires budget >= |olds|
    ensures CleanOld(olds, budget).ok && CleanOld(olds, budget).left >= budget - |olds|
  {
    if olds != [] {
      CleanOldSucceeds(olds[1..], CleanSet(olds[0], budget).left);
    }
  }

  /** With writes to spare the status follows exactly when there is nothing to create or
      fix and no reason to wait for the newest set. */
  lemma {:induction false} StatusFollows(w: World, g: Goal, at: Stamp, budget: nat)
    requires budget > |w.sets|
    ensures var status := Reconcile(w, g, at, budget).status;
            if StageOf(w.sets, g).CleanUp? && (|w.sets| == 1 || Ready(w.sets[0]))
            then status == Some(TotalsOf(w.sets, g)) else status == w.status
  {
    if StageOf(w.sets, g).CleanUp? {
      CleanOldSucceeds(w.sets[1..], budget);
    }
  }

  /** One more write is used exactly by a cleanup that failed for want of it. */
  lemma {:induction false} CleanOldMore(olds: seq<ReplicaSet>, budget: nat)
    ensures var p, q := CleanOld(olds, budget), CleanOld(olds, budget + 1);
            if p.ok then q == Progress(p.sets, p.left + 1, true) else p.left == 0 && q.left == 0
  {
    if olds != [] {
      var p := CleanSet(olds[0], budget);
      if p.ok {
        CleanOldMore(olds[1..], p.left);
      } else {
        CleanOldLeaves(olds[1..], 0);
      }
    }
  }

  /** A reconcile fails exactly when one more successful write would have been used for a
      set, is retried at once when it would have been used for the status, and asks to
      come again after it created a set beside others or replaced a selector. */
  lemma {:induction false} ReplyMeans(w: World, g: Goal, at: Stamp, budget: nat)
    requires Avoids(w.sets, at.name)
    ensures Reply(w, g, at, budget).Failed? <==>
              Writes(w.sets, g, at, budget + 1) == Writes(w.sets, g, at, budget) + 1
    ensures Reply(w, g, at, budget).RequeueNow? <==>
              Reconcile(w, g, at, budget + 1).status != Reconcile(w, g, at, budget).status
    ensures var after := Write(w.sets, g, at, budget).sets;
            Reply(w, g, at, budget).RequeueLater? <==>
              && w.sets != []
              && (after[0].name == at.name || after[0].spec.selector != w.sets[0].spec.selector)
  {
    if StageOf(w.sets, g).CleanUp? {
      CleanOldMore(w.sets[1..], budget);
    }
    assert w.sets != [] ==> w.sets[0].name != at.name;
  }

  // ---- Another order of the same sets ----

  lemma RelistKeepsNames(a: seq<ReplicaSet>, b: seq<ReplicaSet>)
    requires Distinct(a) && multiset(a) == multiset(b)
    ensures Distinct(b)
  {
    forall i, j | 0 <= i < j < |b| ensures b[i].name != b[j].name {
      NamedOnce(a, b, i, j);
    }
  }

  lemma NamedOnce(a: seq<ReplicaSet>, b: seq<ReplicaSet>, i: nat, j: nat)
    requires Distinct(a) && multiset(a) == multiset(b) && i < j < |b|
    ensures b[i].name != b[j].name
  {
    assert b[i] in multiset(a) && b[j] in multiset(a);
    var p :| 0 <= p < |a| && a[p] == b[i];
    var q :| 0 <= q < |a| && a[q] == b[j];
    OnceOnly(a, p);
    CountedTwice(b, i, j);
  }

  lemma CountedTwice(b: seq<ReplicaSet>, i: nat, j: nat)
    requires i < j < |b|
    ensures b[i] == b[j] ==> multiset(b)[b[i]] >= 2
  {
    var x, y := b[..j], b[j..];
    assert b == x + y;
    assert x[i] == b[i] && y[0] == b[j];
    assert multiset(x)[x[i]] >= 1 && multiset(y)[y[0]] >= 1;
  }

  lemma OnceOnly(a: seq<ReplicaSet>, p: nat)
    requires Distinct(a) && p < |a|
    ensures multiset(a)[a[p]] == 1
  {
    assert a == a[..p] + [a[p]] + a[p + 1..];
    assert a[p] !in a[..p] && a[p] !in a[p + 1..];
  }
}
