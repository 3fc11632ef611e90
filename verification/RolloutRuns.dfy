/** Whole rollouts: they end when the sets of the newest second leave no doubt. */
module RolloutRuns {
  import opened Basics
  import opened Rollout

  /** A reconcile with some successful writes; new statuses published by the replica set
      controller; or a listing that sorts sets of the same second in another order. The
      effective time may change at any reconcile. */
  datatype Step =
    | Reconciles(effective: Option<int>, at: Stamp, budget: nat)
    | Publishes(status: seq<Published>)
    | Relists(order: seq<ReplicaSet>)

  function GoalAt(g: Goal, s: Step): Goal
    requires s.Reconciles?
  {
    g.(spec := g.spec.(effective := s.effective))
  }

  function Publish(sets: seq<ReplicaSet>, status: seq<Published>): seq<ReplicaSet>
    requires |sets| == |status|
  {
    seq(|sets|, i requires 0 <= i < |sets| => sets[i].(published := status[i]))
  }

  /** A new set gets a new name, and no earlier second than the newest has. */
  predicate Possible(w: World, s: Step) {
    match s
    case Reconciles(_, at, _) => Avoids(w.sets, at.name) && (w.sets != [] ==> at.time >= w.sets[0].created)
    case Publishes(status) => |status| == |w.sets|
    case Relists(order) => multiset(order) == multiset(w.sets) && NewestFirst(order)
  }

  /** Its second is later than the newest set's. */
  predicate Late(w: World, s: Step) {
    s.Reconciles? && w.sets != [] ==> s.at.time > w.sets[0].created
  }

  function Next(w: World, g: Goal, s: Step): World
    requires Possible(w, s)
  {
    match s
    case Reconciles(_, at, budget) => Reconcile(w, GoalAt(g, s), at, budget)
    case Publishes(status) => w.(sets := Publish(w.sets, status))
    case Relists(order) => w.(sets := order)
  }

  ghost predicate StepAt(states: seq<World>, g: Goal, steps: seq<Step>, late: bool, n: int)
    requires |states| == |steps| + 1 && 0 <= n < |steps|
  {
    && Possible(states[n], steps[n]) && states[n + 1] == Next(states[n], g, steps[n])
    && (late ==> Late(states[n], steps[n]))
  }

  /** With `late`, no set is created in the second of the newest. */
  ghost predicate Run(states: seq<World>, g: Goal, steps: seq<Step>, late: bool) {
    |states| == |steps| + 1 && forall n :: 0 <= n < |steps| ==> StepAt(states, g, steps, late, n)
  }

  function WritesAt(w: World, g: Goal, s: Step): int {
    if s.Reconciles? then Writes(w.sets, GoalAt(g, s), s.at, s.budget) else 0
  }

  /** Replica set writes in the first `n` steps. */
  function TotalWrites(states: seq<World>, g: Goal, steps: seq<Step>, n: nat): int
    requires n <= |steps| <= |states|
  {
    if n == 0 then 0 else TotalWrites(states, g, steps, n - 1) + WritesAt(states[n - 1], g, steps[n - 1])
  }

  /** A reconcile after the runners have followed, and that can write. */
  predicate Fair(w: World, s: Step) { s.Reconciles? && Settled(w.sets) && s.budget > 0 }

  /** Fair reconciles among the first `n` steps. */
  function CountFair(states: seq<World>, steps: seq<Step>, n: nat): nat
    requires n <= |steps| <= |states|
  {
    if n == 0 then 0
    else CountFair(states, steps, n - 1) + if Fair(states[n - 1], steps[n - 1]) then 1 else 0
  }

  // ---- Old sets over runs ----

  lemma {:induction false} RunKeepsNames(states: seq<World>, g: Goal, steps: seq<Step>, late: bool, n: nat)
    requires Run(states, g, steps, late) && n <= |steps| && Distinct(states[0].sets)
    ensures Distinct(states[n].sets)
  {
    if n > 0 {
      RunKeepsNames(states, g, steps, late, n - 1);
      var w, s := states[n - 1], steps[n - 1];
      assert StepAt(states, g, steps, late, n - 1);
      if s.Reconciles? {
        WriteKeepsNames(w.sets, GoalAt(g, s), s.at, s.budget);
      } else if s.Relists? {
        RelistKeepsNames(w.sets, s.order);
      }
    }
  }

  /** The newest set has the wanted hash, selector and count, and as many ready runners. */
  predicate FullyReady(s: ReplicaSet, g: Goal) {
    && s.hash == Some(g.hash) && s.spec.selector == g.spec.selector
    && var count := if g.spec.replicas.Some? then g.spec.replicas.value else 1;
       && count == (if s.spec.replicas.Some? then s.spec.replicas.value else 1)
       && count <= if s.published.ready.Some? then s.published.ready.value else 0
  }

  /** Over every run, a set other than the newest is left as it is unless the newest is the
      wanted one and fully ready; then it is either drained while it has published
      replicas, and nothing else of it is changed, or deleted while it has none. */
  lemma OldSetsOutliveUnreadiness(states: seq<World>, g: Goal, steps: seq<Step>, late: bool, n: nat, k: nat)
    requires Run(states, g, steps, late) && n < |steps| && Distinct(states[0].sets)
    requires steps[n].Reconciles? && 0 < k < |states[n].sets|
    ensures var s, after := states[n].sets[k], Named(states[n + 1].sets, states[n].sets[k].name);
            var inUse := s.published.replicas.Some? && s.published.replicas.value > 0;
            || after == Some(s)
            || (FullyReady(states[n].sets[0], g)
                && after == if inUse then Some(s.(spec := s.spec.(replicas := Some(0)))) else None)
  {
    RunKeepsNames(states, g, steps, late, n);
    var s := steps[n];
    assert StepAt(states, g, steps, late, n);
    OldSetsFate(states[n].sets, GoalAt(g, s), s.at, s.budget, k);
  }

  // ---- Sums over sets, in any order ----

  function Total(sets: seq<ReplicaSet>, f: ReplicaSet -> nat): nat {
    if sets == [] then 0 else f(sets[0]) + Total(sets[1..], f)
  }

  lemma {:induction false} TotalRemove(a: seq<ReplicaSet>, i: nat, f: ReplicaSet -> nat)
    requires i < |a|
    ensures Total(a, f) == f(a[i]) + Total(a[..i] + a[i + 1..], f)
  {
    if i == 0 {
      assert a[..0] + a[1..] == a[1..];
    } else {
      TotalRemove(a[1..], i - 1, f);
      assert (a[..i] + a[i + 1..])[1..] == a[1..][..i - 1] + a[1..][i..];
    }
  }

  lemma RemoveAgrees(a: seq<ReplicaSet>, b: seq<ReplicaSet>, i: nat)
    requires a != [] && i < |b| && b[i] == a[0] && multiset(a) == multiset(b)
    ensures multiset(a[1..]) == multiset(b[..i] + b[i + 1..])
  {
    assert a == [a[0]] + a[1..] && b == b[..i] + [b[i]] + b[i + 1..];
    assert multiset(a[1..]) == multiset(a) - multiset{a[0]};
  }

  lemma {:induction false} TotalPermutes(a: seq<ReplicaSet>, b: seq<ReplicaSet>, f: ReplicaSet -> nat)
    requires multiset(a) == multiset(b)
    ensures Total(a, f) == Total(b, f)
  {
    if a == [] {
      assert |b| == |multiset(b)| == 0;
    } else {
      assert a[0] in multiset(b);
      var i :| 0 <= i < |b| && b[i] == a[0];
      TotalRemove(b, i, f);
      RemoveAgrees(a, b, i);
      TotalPermutes(a[1..], b[..i] + b[i + 1..], f);
    }
  }

  // ---- Starts that settle ----

  /** What a rollout is after: the goal without its effective time. */
  datatype Wish = Wish(hash: string, selector: string, count: int)

  function WishOf(g: Goal): Wish { Wish(g.hash, g.spec.selector, OrDefault(g.spec.replicas, 1)) }

  predicate Wanted(s: ReplicaSet, wish: Wish) { s.hash == Some(wish.hash) }

  /** Counts the wanted sets of a second. */
  function Contenders(second: int, wish: Wish): ReplicaSet -> nat {
    (s: ReplicaSet) => if s.created == second && Wanted(s, wish) then 1 else 0
  }

  /** The set may be listed first. */
  predicate Top(sets: seq<ReplicaSet>, i: int) {
    0 <= i < |sets| && sets[i].created == sets[0].created
  }

  /** Among the sets of the newest second none lacks its hash, and at most one has the
      wanted one unless no replicas are wanted. If sets may be created in that second,
      all of them have the wanted hash. */
  predicate Settles(sets: seq<ReplicaSet>, wish: Wish, late: bool) {
    sets != [] ==>
      && (forall i :: 0 <= i < |sets| && Top(sets, i) ==> sets[i].hash.Some? && (late || Wanted(sets[i], wish)))
      && (wish.count == 0 || Total(sets, Contenders(sets[0].created, wish)) <= 1)
  }

  // ---- A measure that does not depend on the order ----

  function Weight(s: ReplicaSet): nat { if Drained(s) then 1 else 2 }

  function WeightOf(): ReplicaSet -> nat { (s: ReplicaSet) => Weight(s) }

  function Cost(s: ReplicaSet, wish: Wish): nat {
    (if s.spec.selector != wish.selector then 1 else 0) + (if OrDefault(s.spec.replicas, 1) != wish.count then 1 else 0)
  }

  /** Writes still to come for a set: to fix it if it may be kept, else to drain and
      delete it. */
  function Value(s: ReplicaSet, second: int, wish: Wish): nat {
    if s.created == second && Wanted(s, wish) then 1 + Cost(s, wish) else Weight(s)
  }

  function ValueOf(second: int, wish: Wish): ReplicaSet -> nat { (s: ReplicaSet) => Value(s, second, wish) }

  /** A new set may still have to be created. */
  predicate Unmade(sets: seq<ReplicaSet>, wish: Wish) {
    sets == [] || exists i :: 0 <= i < |sets| && Top(sets, i) && !Wanted(sets[i], wish)
  }

  /** Bounds the replica set writes still to come. */
  function Measure(sets: seq<ReplicaSet>, wish: Wish): nat {
    (if sets == [] then 0 else Total(sets, ValueOf(sets[0].created, wish))) + if Unmade(sets, wish) then 3 else 0
  }

  // ---- Listing in another order ----

  lemma SameSecond(a: seq<ReplicaSet>, b: seq<ReplicaSet>)
    requires NewestFirst(a) && NewestFirst(b) && multiset(a) == multiset(b)
    ensures |a| == |b| && (a != [] ==> a[0].created == b[0].created)
  {
    assert |a| == |multiset(a)| == |multiset(b)| == |b|;
    if a != [] {
      assert a[0] in multiset(b) && b[0] in multiset(a);
      var i :| 0 <= i < |a| && a[i] == b[0];
      var j :| 0 <= j < |b| && b[j] == a[0];
    }
  }

  lemma SamePlace(a: seq<ReplicaSet>, b: seq<ReplicaSet>, i: nat) returns (j: nat)
    requires multiset(a) == multiset(b) && i < |a|
    ensures j < |b| && b[j] == a[i]
  {
    assert a[i] in multiset(b);
    j :| 0 <= j < |b| && b[j] == a[i];
  }

  lemma RelistSettles(a: seq<ReplicaSet>, b: seq<ReplicaSet>, wish: Wish, late: bool)
    requires NewestFirst(a) && NewestFirst(b) && multiset(a) == multiset(b) && Settles(a, wish, late)
    ensures Settles(b, wish, late)
  {
    SameSecond(a, b);
    if b != [] {
      TotalPermutes(a, b, Contenders(a[0].created, wish));
      forall i | 0 <= i < |b| && Top(b, i) ensures b[i].hash.Some? && (late || Wanted(b[i], wish)) {
        var j := SamePlace(b, a, i);
        assert Top(a, j);
      }
    }
  }

  lemma UnmadeRelists(a: seq<ReplicaSet>, b: seq<ReplicaSet>, wish: Wish)
    requires NewestFirst(a) && NewestFirst(b) && multiset(a) == multiset(b) && Unmade(a, wish)
    ensures Unmade(b, wish)
  {
    SameSecond(a, b);
    if a != [] {
      var i :| 0 <= i < |a| && Top(a, i) && !Wanted(a[i], wish);
      var j := SamePlace(a, b, i);
      assert Top(b, j);
    }
  }

  lemma RelistKeepsMeasure(a: seq<ReplicaSet>, b: seq<ReplicaSet>, wish: Wish)
    requires NewestFirst(a) && NewestFirst(b) && multiset(a) == multiset(b)
    ensures Measure(a, wish) == Measure(b, wish)
  {
    SameSecond(a, b);
    if Unmade(a, wish) {
      UnmadeRelists(a, b, wish);
    }
    if Unmade(b, wish) {
      UnmadeRelists(b, a, wish);
    }
    if a != [] {
      TotalPermutes(a, b, ValueOf(a[0].created, wish));
    }
  }

  // ---- New statuses ----

  /** `f` does not look at the status. */
  ghost predicate Blind(f: ReplicaSet -> nat) {
    forall s: ReplicaSet, p: Published :: f(s.(published := p)) == f(s)
  }

  lemma {:induction false} PublishKeepsTotal(sets: seq<ReplicaSet>, status: seq<Published>, f: ReplicaSet -> nat)
    requires |sets| == |status| && Blind(f)
    ensures Total(Publish(sets, status), f) == Total(sets, f)
  {
    if sets != [] {
      PublishKeepsTotal(sets[1..], status[1..], f);
      assert Publish(sets, status)[1..] == Publish(sets[1..], status[1..]);
    }
  }

  lemma PublishKeepsAll(sets: seq<ReplicaSet>, status: seq<Published>, wish: Wish, late: bool)
    requires |sets| == |status|
    ensures Settles(sets, wish, late) ==> Settles(Publish(sets, status), wish, late)
    ensures Measure(Publish(sets, status), wish) == Measure(sets, wish)
    ensures NewestFirst(sets) ==> NewestFirst(Publish(sets, status))
  {
    var after := Publish(sets, status);
    assert forall i :: 0 <= i < |sets| ==>
                         Top(after, i) == Top(sets, i) && Wanted(after[i], wish) == Wanted(sets[i], wish);
    if sets != [] {
      PublishKeepsTotal(sets, status, Contenders(sets[0].created, wish));
      PublishKeepsTotal(sets, status, ValueOf(sets[0].created, wish));
    }
  }

  // ---- One write at a time ----

  /** Draining or deleting the set lowers `f`. */
  ghost predicate Sheds(s: ReplicaSet, f: ReplicaSet -> nat) {
    f(s) >= 1 && (!Drained(s) ==> f(Drain(s)) + 1 <= f(s))
  }

  lemma {:induction false} CleanOldSpends(olds: seq<ReplicaSet>, budget: nat, f: ReplicaSet -> nat)
    requires forall i :: 0 <= i < |olds| ==> Sheds(olds[i], f)
    ensures CleanOld(olds, budget).left <= budget
    ensures Total(CleanOld(olds, budget).sets, f) + budget - CleanOld(olds, budget).left <= Total(olds, f)
  {
    if olds != [] {
      var p := CleanSet(olds[0], budget);
      assert Sheds(olds[0], f);
      if p.ok {
        CleanOldSpends(olds[1..], p.left, f);
        var rest := CleanOld(olds[1..], p.left).sets;
        assert p.sets != [] ==> (p.sets + rest)[1..] == rest;
        assert [] + rest == rest;
      }
    }
  }

  lemma {:induction false} CleanOldCounts(olds: seq<ReplicaSet>, budget: nat, f: ReplicaSet -> nat)
    requires forall s: ReplicaSet :: f(Drain(s)) == f(s)
    ensures Total(CleanOld(olds, budget).sets, f) <= Total(olds, f)
  {
    if olds != [] {
      var p := CleanSet(olds[0], budget);
      if p.ok {
        CleanOldCounts(olds[1..], p.left, f);
        var rest := CleanOld(olds[1..], p.left).sets;
        assert p.sets != [] ==> (p.sets + rest)[1..] == rest;
        assert [] + rest == rest;
      }
    }
  }

  /** Every set left by a cleanup was there before, up to its replicas. */
  lemma {:induction false} CleanOldFrom(olds: seq<ReplicaSet>, budget: nat, k: nat) returns (i: nat)
    requires k < |CleanOld(olds, budget).sets|
    ensures i < |olds| && var s := CleanOld(olds, budget).sets[k]; s == olds[i] || s == Drain(olds[i])
  {
    var p := CleanSet(olds[0], budget);
    if !p.ok {
      i := k;
    } else if k < |p.sets| {
      i := 0;
    } else {
      i := CleanOldFrom(olds[1..], p.left, k - |p.sets|);
      i := i + 1;
    }
  }

  lemma {:induction false} CleanOldNewestFirst(olds: seq<ReplicaSet>, budget: nat, time: int)
    requires NewestFirst(olds) && forall i :: 0 <= i < |olds| ==> olds[i].created <= time
    ensures NewestFirst(CleanOld(olds, budget).sets)
    ensures forall i :: 0 <= i < |CleanOld(olds, budget).sets| ==> CleanOld(olds, budget).sets[i].created <= time
  {
    if olds != [] {
      CleanOldNewestFirst(olds[1..], CleanSet(olds[0], budget).left, olds[0].created);
    }
  }

  lemma {:induction false} WriteKeepsNewestFirst(sets: seq<ReplicaSet>, g: Goal, at: Stamp, budget: nat)
    requires NewestFirst(sets) && (sets != [] ==> at.time >= sets[0].created)
    ensures NewestFirst(Write(sets, g, at, budget).sets)
  {
    if StageOf(sets, g).CleanUp? && |sets| > 1 {
      CleanOldNewestFirst(sets[1..], budget, sets[0].created);
    }
  }

  /** A new set is the only one of its second. */
  lemma {:induction false} TotalOld(sets: seq<ReplicaSet>, second: int, wish: Wish)
    requires forall i :: 0 <= i < |sets| ==> sets[i].created < second
    ensures Total(sets, ValueOf(second, wish)) == Total(sets, WeightOf())
    ensures Total(sets, Contenders(second, wish)) == 0
  {
    if sets != [] {
      TotalOld(sets[1..], second, wish);
    }
  }

  /** To become old costs a set at most one write more, and only if it was a contender. */
  lemma {:induction false} WeightsBound(sets: seq<ReplicaSet>, second: int, wish: Wish)
    ensures Total(sets, WeightOf()) <= Total(sets, ValueOf(second, wish)) + Total(sets, Contenders(second, wish))
    ensures wish.count == 0 ==> Total(sets, WeightOf()) <= Total(sets, ValueOf(second, wish))
  {
    if sets != [] {
      WeightsBound(sets[1..], second, wish);
    }
  }

  lemma {:induction false} CreateSpends(sets: seq<ReplicaSet>, g: Goal, at: Stamp, late: bool)
    requires NewestFirst(sets) && Settles(sets, WishOf(g), late) && StageOf(sets, g).Create?
    requires sets != [] ==> at.time > sets[0].created
    ensures Settles([NewSet(g, at)] + sets, WishOf(g), late)
    ensures Measure([NewSet(g, at)] + sets, WishOf(g)) + 1 <= Measure(sets, WishOf(g))
  {
    var wish, after := WishOf(g), [NewSet(g, at)] + sets;
    assert after[1..] == sets;
    forall i | 0 <= i < |sets| ensures sets[i].created < at.time {
      assert i > 0 ==> sets[0].created >= sets[i].created;
    }
    TotalOld(sets, at.time, wish);
    assert forall i :: 0 < i < |after| ==> after[i] == sets[i - 1] && !Top(after, i);
    assert !Unmade(after, wish);
    if sets != [] {
      assert Top(sets, 0) && !Wanted(sets[0], wish);
      WeightsBound(sets, sets[0].created, wish);
    }
  }

  lemma {:induction false} FixSpends(sets: seq<ReplicaSet>, s: ReplicaSet, wish: Wish, late: bool)
    requires sets != [] && Settles(sets, wish, late) && Wanted(sets[0], wish)
    requires s.created == sets[0].created && s.hash == sets[0].hash && Cost(s, wish) < Cost(sets[0], wish)
    ensures Settles(sets[0 := s], wish, late) && Measure(sets[0 := s], wish) + 1 <= Measure(sets, wish)
  {
    var after := sets[0 := s];
    assert after[1..] == sets[1..];
    assert forall i :: 0 <= i < |sets| ==> Top(after, i) == Top(sets, i) && after[i].hash == sets[i].hash;
  }

  /** While the newest set is the wanted one, cleaning up sheds every other set. */
  lemma {:induction false} OthersShed(sets: seq<ReplicaSet>, wish: Wish, late: bool, i: nat)
    requires 0 < i < |sets| && Settles(sets, wish, late) && Wanted(sets[0], wish)
    ensures Sheds(sets[i], ValueOf(sets[0].created, wish))
  {
    if wish.count != 0 && Top(sets, i) && Wanted(sets[i], wish) {
      TwoContend(sets, wish, 0, i);
    }
  }

  lemma {:induction false} TwoContend(sets: seq<ReplicaSet>, wish: Wish, i: nat, j: nat)
    requires i < j < |sets| && Top(sets, i) && Top(sets, j) && Wanted(sets[i], wish) && Wanted(sets[j], wish)
    ensures Total(sets, Contenders(sets[0].created, wish)) >= 2
  {
    var f := Contenders(sets[0].created, wish);
    TotalRemove(sets, j, f);
    var rest := sets[..j] + sets[j + 1..];
    assert rest[i] == sets[i];
    TotalRemove(rest, i, f);
  }

  lemma {:induction false} CleanUnmade(sets: seq<ReplicaSet>, budget: nat, wish: Wish)
    requires sets != [] && Wanted(sets[0], wish)
    requires Unmade([sets[0]] + CleanOld(sets[1..], budget).sets, wish)
    ensures Unmade(sets, wish)
  {
    var after := [sets[0]] + CleanOld(sets[1..], budget).sets;
    var k :| 0 <= k < |after| && Top(after, k) && !Wanted(after[k], wish);
    var i := CleanOldFrom(sets[1..], budget, k - 1);
    assert sets[1..][i] == sets[i + 1];
    assert Top(sets, i + 1) && !Wanted(sets[i + 1], wish);
  }

  lemma {:induction false} CleanSettles(sets: seq<ReplicaSet>, budget: nat, wish: Wish, late: bool)
    requires sets != [] && Settles(sets, wish, late)
    ensures Settles([sets[0]] + CleanOld(sets[1..], budget).sets, wish, late)
  {
    var olds := CleanOld(sets[1..], budget).sets;
    var after := [sets[0]] + olds;
    forall k | 0 <= k < |after| && Top(after, k) ensures after[k].hash.Some? && (late || Wanted(after[k], wish)) {
      if k > 0 {
        var i := CleanOldFrom(sets[1..], budget, k - 1);
        assert sets[1..][i] == sets[i + 1] && Top(sets, i + 1);
      } else {
        assert Top(sets, 0);
      }
    }
    CleanOldCounts(sets[1..], budget, Contenders(sets[0].created, wish));
    assert after[1..] == olds;
  }

  lemma {:induction false} CleanSpends(sets: seq<ReplicaSet>, budget: nat, wish: Wish, late: bool)
    requires sets != [] && Settles(sets, wish, late) && Wanted(sets[0], wish)
    ensures var p := CleanOld(sets[1..], budget);
            p.left <= budget && Measure([sets[0]] + p.sets, wish) + budget - p.left <= Measure(sets, wish)
  {
    var p, f := CleanOld(sets[1..], budget), ValueOf(sets[0].created, wish);
    forall i | 0 <= i < |sets[1..]| ensures Sheds(sets[1..][i], f) {
      OthersShed(sets, wish, late, i + 1);
    }
    CleanOldSpends(sets[1..], budget, f);
    assert ([sets[0]] + p.sets)[1..] == p.sets;
    if Unmade([sets[0]] + p.sets, wish) {
      CleanUnmade(sets, budget, wish);
    }
  }

  /** Where a rollout settles, a reconcile keeps it so and lowers the measure by at least
      the number of its writes. */
  lemma {:induction false} ReconcileSpends(sets: seq<ReplicaSet>, g: Goal, at: Stamp, budget: nat, late: bool)
    requires NewestFirst(sets) && Settles(sets, WishOf(g), late)
    requires sets != [] ==> at.time >= sets[0].created && (late ==> at.time > sets[0].created)
    ensures var p := Write(sets, g, at, budget);
            && Settles(p.sets, WishOf(g), late) && 0 <= Writes(sets, g, at, budget) <= budget
            && Measure(p.sets, WishOf(g)) + Writes(sets, g, at, budget) <= Measure(sets, WishOf(g))
  {
    var wish := WishOf(g);
    assert sets != [] ==> Top(sets, 0);
    match StageOf(sets, g)
    case Create =>
      if budget > 0 {
        CreateSpends(sets, g, at, late);
      }
    case CleanUp =>
      if |sets| > 1 && Ready(sets[0]) {
        assert sets[..1] == [sets[0]];
        CleanSettles(sets, budget, wish, late);
        CleanSpends(sets, budget, wish, late);
      }
    case Unlabelled =>
    case FixSelector =>
      if budget > 0 {
        FixSpends(sets, sets[0].(spec := g.spec), wish, late);
      }
    case FixReplicas =>
      if budget > 0 {
        FixSpends(sets, Write(sets, g, at, 1).sets[0], wish, late);
      }
  }

  // ---- Whole rollouts ----

  lemma StepSpends(w: World, g: Goal, s: Step, late: bool)
    requires Possible(w, s) && (late ==> Late(w, s)) && NewestFirst(w.sets) && Settles(w.sets, WishOf(g), late)
    ensures NewestFirst(Next(w, g, s).sets) && Settles(Next(w, g, s).sets, WishOf(g), late)
    ensures 0 <= WritesAt(w, g, s)
    ensures Measure(Next(w, g, s).sets, WishOf(g)) + WritesAt(w, g, s) <= Measure(w.sets, WishOf(g))
  {
    match s
    case Reconciles(_, at, budget) =>
      assert WishOf(GoalAt(g, s)) == WishOf(g);
      ReconcileSpends(w.sets, GoalAt(g, s), at, budget, late);
      WriteKeepsNewestFirst(w.sets, GoalAt(g, s), at, budget);
    case Relists(order) =>
      RelistSettles(w.sets, order, WishOf(g), late);
      RelistKeepsMeasure(w.sets, order, WishOf(g));
    case Publishes(status) => PublishKeepsAll(w.sets, status, WishOf(g), late);
  }

  /** However reconciles, failed writes, status changes and listings interleave, a rollout
      that settles never needs more replica set writes than the measure of its start. */
  lemma {:induction false} WritesAreBounded(states: seq<World>, g: Goal, steps: seq<Step>, late: bool, n: nat)
    requires Run(states, g, steps, late) && n <= |steps|
    requires NewestFirst(states[0].sets) && Settles(states[0].sets, WishOf(g), late)
    ensures NewestFirst(states[n].sets) && Settles(states[n].sets, WishOf(g), late)
    ensures 0 <= TotalWrites(states, g, steps, n)
    ensures TotalWrites(states, g, steps, n) + Measure(states[n].sets, WishOf(g)) <= Measure(states[0].sets, WishOf(g))
  {
    if n > 0 {
      WritesAreBounded(states, g, steps, late, n - 1);
      assert StepAt(states, g, steps, late, n - 1);
      StepSpends(states[n - 1], g, steps[n - 1], late);
    }
  }

  lemma StepKeepsConverged(w: World, g: Goal, s: Step)
    requires Possible(w, s) && Converged(w.sets, g)
    ensures Converged(Next(w, g, s).sets, g)
  {
    if s.Reconciles? {
      ConvergedIsStable(w, GoalAt(g, s), s.at, s.budget);
    } else if s.Relists? {
      assert |s.order| == |multiset(s.order)| == 1;
      var j := SamePlace(s.order, w.sets, 0);
    }
  }

  lemma FairStepWrites(w: World, g: Goal, s: Step, late: bool)
    requires Possible(w, s) && Fair(w, s) && Settles(w.sets, WishOf(g), late) && !Converged(w.sets, g)
    ensures WritesAt(w, g, s) != 0
  {
    assert w.sets != [] ==> Top(w.sets, 0);
    QuietIffConverged(w.sets, GoalAt(g, s), s.at, s.budget);
  }

  /** Until the rollout is complete every fair reconcile writes. */
  lemma {:induction false} ProgressUntilConverged(states: seq<World>, g: Goal, steps: seq<Step>, late: bool, n: nat)
    requires Run(states, g, steps, late) && n <= |steps|
    requires NewestFirst(states[0].sets) && Settles(states[0].sets, WishOf(g), late)
    ensures Converged(states[n].sets, g) || TotalWrites(states, g, steps, n) >= CountFair(states, steps, n)
  {
    if n > 0 {
      ProgressUntilConverged(states, g, steps, late, n - 1);
      var w, s := states[n - 1], steps[n - 1];
      assert StepAt(states, g, steps, late, n - 1);
      WritesAreBounded(states, g, steps, late, n - 1);
      StepSpends(w, g, s, late);
      if Converged(w.sets, g) {
        StepKeepsConverged(w, g, s);
      } else if Fair(w, s) {
        FairStepWrites(w, g, s, late);
      }
    }
  }

  // ---- The wanted template ----

  /** The sets labelled with the wanted hash have the wanted template. */
  predicate TrueToTemplate(sets: seq<ReplicaSet>, g: Goal) {
    forall i :: 0 <= i < |sets| && sets[i].hash == Some(g.hash) ==> sets[i].spec.template == g.spec.template
  }

  lemma {:induction false} CleanKeepsTemplate(sets: seq<ReplicaSet>, budget: nat, g: Goal)
    requires sets != [] && TrueToTemplate(sets, g)
    ensures TrueToTemplate([sets[0]] + CleanOld(sets[1..], budget).sets, g)
  {
    var after := [sets[0]] + CleanOld(sets[1..], budget).sets;
    forall k | 0 <= k < |after| && after[k].hash == Some(g.hash) ensures after[k].spec.template == g.spec.template {
      if k > 0 {
        var i := CleanOldFrom(sets[1..], budget, k - 1);
        assert sets[1..][i] == sets[i + 1];
      }
    }
  }

  lemma {:induction false} WriteKeepsTemplate(sets: seq<ReplicaSet>, g: Goal, at: Stamp, budget: nat)
    requires TrueToTemplate(sets, g)
    ensures TrueToTemplate(Write(sets, g, at, budget).sets, g)
  {
    if StageOf(sets, g).CleanUp? {
      assert sets[..1] == [sets[0]];
      CleanKeepsTemplate(sets, budget, g);
    }
  }

  lemma StepKeepsTemplate(w: World, g: Goal, s: Step)
    requires Possible(w, s) && TrueToTemplate(w.sets, g)
    ensures TrueToTemplate(Next(w, g, s).sets, g)
  {
    match s
    case Reconciles(_, at, budget) =>
      assert TrueToTemplate(w.sets, GoalAt(g, s));
      WriteKeepsTemplate(w.sets, GoalAt(g, s), at, budget);
    case Publishes(_) =>
    case Relists(order) =>
      forall i | 0 <= i < |order| && order[i].hash == Some(g.hash) ensures order[i].spec.template == g.spec.template {
        var j := SamePlace(order, w.sets, i);
      }
  }

  /** The hash label never lies about the template: not in any run that starts so. */
  lemma {:induction false} TemplatesOverRuns(states: seq<World>, g: Goal, steps: seq<Step>, late: bool, n: nat)
    requires Run(states, g, steps, late) && n <= |steps| && TrueToTemplate(states[0].sets, g)
    ensures TrueToTemplate(states[n].sets, g)
  {
    if n > 0 {
      TemplatesOverRuns(states, g, steps, late, n - 1);
      assert StepAt(states, g, steps, late, n - 1);
      StepKeepsTemplate(states[n - 1], g, steps[n - 1]);
    }
  }

  lemma {:induction false} CleanOldShrinks(olds: seq<ReplicaSet>, budget: nat)
    ensures |CleanOld(olds, budget).sets| <= |olds|
  {
    if olds != [] {
      CleanOldShrinks(olds[1..], CleanSet(olds[0], budget).left);
    }
  }

  /** A step that adds a set adds exactly the one that the deployment asks for at that
      time, with its effective time and without a status. */
  lemma CreatedAsAsked(w: World, g: Goal, s: Step)
    requires Possible(w, s)
    ensures |Next(w, g, s).sets| > |w.sets| ==>
              && s.Reconciles? && Next(w, g, s).sets[1..] == w.sets
              && var made := Next(w, g, s).sets[0];
                 && made.name == s.at.name && made.created == s.at.time && made.hash == Some(g.hash)
                 && made.spec == g.spec.(effective := s.effective) && made.published == FRESH
  {
    match s
    case Reconciles(_, _, budget) =>
      if w.sets != [] {
        CleanOldShrinks(w.sets[1..], budget);
      }
    case Publishes(_) =>
    case Relists(order) => assert |order| == |multiset(order)| == |multiset(w.sets)| == |w.sets|;
  }

  /** A rollout that settles ends: in any run with more fair reconciles than the measure
      of its start, whatever happens between them, exactly the wanted set is left. */
  lemma RolloutConverges(states: seq<World>, g: Goal, steps: seq<Step>, late: bool)
    requires Run(states, g, steps, late)
    requires NewestFirst(states[0].sets) && Settles(states[0].sets, WishOf(g), late)
    requires CountFair(states, steps, |steps|) > Measure(states[0].sets, WishOf(g))
    ensures Converged(states[|steps|].sets, g)
    ensures TrueToTemplate(states[0].sets, g) ==> states[|steps|].sets[0].spec.template == g.spec.template
  {
    ProgressUntilConverged(states, g, steps, late, |steps|);
    WritesAreBounded(states, g, steps, late, |steps|);
    if TrueToTemplate(states[0].sets, g) {
      TemplatesOverRuns(states, g, steps, late, |steps|);
    }
  }
}
