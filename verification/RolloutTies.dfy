/** Starts from which a rollout need not end: for each of them, runs with any number of
    fair reconciles that do not converge. */
module RolloutTies {
  import opened Basics
  import opened Rollout
  import opened RolloutRuns

  // ---- Reaching a state by a run ----

  ghost predicate RunTo(states: seq<World>, steps: seq<Step>, w: World, w': World, g: Goal, late: bool, fair: nat) {
    && Run(states, g, steps, late) && states[0] == w && states[|steps|] == w'
    && CountFair(states, steps, |steps|) >= fair
  }

  /** Some run leads from `w` to `w'` with at least so many fair reconciles. */
  ghost predicate Reaches(w: World, w': World, g: Goal, late: bool, fair: nat) {
    exists states, steps :: RunTo(states, steps, w, w', g, late, fair)
  }

  lemma ReachesItself(w: World, g: Goal, late: bool)
    ensures Reaches(w, w, g, late, 0)
  {
    assert RunTo([w], [], w, w, g, late, 0);
  }

  lemma {:induction false} PrefixFair(states: seq<World>, steps: seq<Step>, w: World, s: Step, n: nat)
    requires n <= |steps| < |states|
    ensures CountFair(states + [w], steps + [s], n) == CountFair(states, steps, n)
  {
    if n > 0 {
      PrefixFair(states, steps, w, s, n - 1);
      assert (states + [w])[n - 1] == states[n - 1] && (steps + [s])[n - 1] == steps[n - 1];
    }
  }

  lemma ExtendRun(states: seq<World>, steps: seq<Step>, g: Goal, late: bool, s: Step)
    requires Run(states, g, steps, late)
    requires Possible(states[|steps|], s) && (late ==> Late(states[|steps|], s))
    ensures Run(states + [Next(states[|steps|], g, s)], g, steps + [s], late)
  {
    var more, steps' := states + [Next(states[|steps|], g, s)], steps + [s];
    forall n | 0 <= n < |steps'| ensures StepAt(more, g, steps', late, n) {
      if n < |steps| {
        assert StepAt(states, g, steps, late, n);
        assert more[n] == states[n] && more[n + 1] == states[n + 1] && steps'[n] == steps[n];
      }
    }
  }

  lemma ReachStep(w: World, w1: World, g: Goal, late: bool, fair: nat, s: Step)
    requires Reaches(w, w1, g, late, fair) && Possible(w1, s) && (late ==> Late(w1, s))
    ensures Reaches(w, Next(w1, g, s), g, late, fair + if Fair(w1, s) then 1 else 0)
  {
    var states, steps :| RunTo(states, steps, w, w1, g, late, fair);
    var more, steps' := states + [Next(w1, g, s)], steps + [s];
    ExtendRun(states, steps, g, late, s);
    PrefixFair(states, steps, Next(w1, g, s), s, |steps|);
    assert more[|steps|] == w1 && steps'[|steps|] == s;
    assert RunTo(more, steps', w, Next(w1, g, s), g, late, fair + if Fair(w1, s) then 1 else 0);
  }

  /** A reconcile with one successful write, in the second after the newest set's. */
  lemma ReachReconcile(w: World, w1: World, g: Goal, late: bool, fair: nat) returns (w2: World)
    requires Reaches(w, w1, g, late, fair) && w1.sets != []
    ensures exists at: Stamp :: Avoids(w1.sets, at.name) && w2 == Reconcile(w1, g, at, 1)
    ensures Reaches(w, w2, g, late, fair + if Settled(w1.sets) then 1 else 0)
  {
    var at := Stamp(FreshName(w1.sets), w1.sets[0].created + 1);
    FreshIsNew(w1.sets);
    var s := Reconciles(g.spec.effective, at, 1);
    assert GoalAt(g, s) == g;
    ReachStep(w, w1, g, late, fair, s);
    w2 := Next(w1, g, s);
  }

  function FreshName(sets: seq<ReplicaSet>): nat {
    if sets == [] then 0
    else
      var n := FreshName(sets[1..]);
      if sets[0].name < n then n else sets[0].name + 1
  }

  lemma {:induction false} FreshIsNew(sets: seq<ReplicaSet>)
    ensures Avoids(sets, FreshName(sets)) && forall i :: 0 <= i < |sets| ==> sets[i].name < FreshName(sets)
  {
    if sets != [] {
      FreshIsNew(sets[1..]);
      forall i | 0 <= i < |sets| ensures sets[i].name < FreshName(sets) {
        assert i > 0 ==> sets[i] == sets[1..][i - 1];
      }
    }
  }

  // ---- Listing a set of the newest second first ----

  function First(sets: seq<ReplicaSet>, i: nat): seq<ReplicaSet>
    requires i < |sets|
  {
    [sets[i]] + sets[..i] + sets[i + 1..]
  }

  lemma FirstIsListing(sets: seq<ReplicaSet>, i: nat)
    requires NewestFirst(sets) && Top(sets, i)
    ensures NewestFirst(First(sets, i)) && multiset(First(sets, i)) == multiset(sets)
  {
    var b := First(sets, i);
    assert sets == sets[..i] + [sets[i]] + sets[i + 1..];
    forall p, q | 0 <= p < q < |b| ensures b[p].created >= b[q].created {
      assert b[p] == sets[if p == 0 then i else if p <= i then p - 1 else p];
      assert b[q] == sets[if q <= i then q - 1 else q];
    }
  }

  lemma ReachFirst(w: World, w1: World, g: Goal, late: bool, fair: nat, i: nat) returns (w2: World)
    requires Reaches(w, w1, g, late, fair) && NewestFirst(w1.sets) && Top(w1.sets, i)
    ensures w2 == w1.(sets := First(w1.sets, i)) && NewestFirst(w2.sets) && Reaches(w, w2, g, late, fair)
  {
    FirstIsListing(w1.sets, i);
    ReachStep(w, w1, g, late, fair, Relists(First(w1.sets, i)));
    w2 := w1.(sets := First(w1.sets, i));
  }

  // ---- A newest set without a hash ----

  function Absolute(n: int): nat { if n < 0 then -n else n }

  /** A status with which the set is ready and empty. */
  function Calm(s: ReplicaSet): Published { Published(None, Some(Absolute(OrDefault(s.spec.replicas, 1))), None) }

  function Calmed(sets: seq<ReplicaSet>): seq<Published> {
    seq(|sets|, i requires 0 <= i < |sets| => Calm(sets[i]))
  }

  /** The runners follow: whatever the sets are, their statuses can settle. */
  lemma ReachSettled(w: World, w1: World, g: Goal, late: bool, fair: nat) returns (w2: World)
    requires Reaches(w, w1, g, late, fair) && NewestFirst(w1.sets)
    ensures w2.sets == Publish(w1.sets, Calmed(w1.sets)) && Settled(w2.sets) && NewestFirst(w2.sets)
    ensures Reaches(w, w2, g, late, fair)
  {
    ReachStep(w, w1, g, late, fair, Publishes(Calmed(w1.sets)));
    w2 := w1.(sets := Publish(w1.sets, Calmed(w1.sets)));
  }

  lemma {:induction false} UnlabelledStays(w: World, w1: World, g: Goal, late: bool, n: nat)
    requires Reaches(w, w1, g, late, 0) && w1.sets != [] && w1.sets[0].hash.None? && Settled(w1.sets)
    ensures Reaches(w, w1, g, late, n)
  {
    if n > 0 {
      UnlabelledStays(w, w1, g, late, n - 1);
      var w2 := ReachReconcile(w, w1, g, late, n - 1);
    }
  }

  lemma UnlabelledNeverSettles(w: World, g: Goal, late: bool, i: nat, n: nat) returns (w': World)
    requires NewestFirst(w.sets) && Top(w.sets, i) && w.sets[i].hash.None?
    ensures Reaches(w, w', g, late, n) && !Converged(w'.sets, g)
  {
    ReachesItself(w, g, late);
    var w1 := ReachFirst(w, w, g, late, 0, i);
    w' := ReachSettled(w, w1, g, late, 0);
    UnlabelledStays(w, w', g, late, n);
  }

  // ---- A newest set of another hash, and creations in its second ----

  /** A set of another hash is listed first, and the runners have followed. */
  predicate Foreign(sets: seq<ReplicaSet>, g: Goal) {
    sets != [] && NewestFirst(sets) && StageOf(sets, g).Create? && Settled(sets)
  }

  /** One more set is created in the same second, and listed second. */
  lemma CreatesAgain(w: World, w1: World, g: Goal, fair: nat) returns (w2: World)
    requires Reaches(w, w1, g, false, fair) && Foreign(w1.sets, g)
    ensures Reaches(w, w2, g, false, fair + 1) && Foreign(w2.sets, g) && |w2.sets| > 1
  {
    var sets, at := w1.sets, Stamp(FreshName(w1.sets), w1.sets[0].created);
    FreshIsNew(sets);
    var s := Reconciles(g.spec.effective, at, 1);
    assert GoalAt(g, s) == g;
    ReachStep(w, w1, g, false, fair, s);
    var made := Next(w1, g, s);
    assert made.sets == [NewSet(g, at)] + sets;
    assert Top(made.sets, 1);
    w2 := ReachFirst(w, made, g, false, fair + 1, 1);
    assert w2.sets == [sets[0], NewSet(g, at)] + sets[1..];
    ForeignKept(sets, NewSet(g, at), g);
  }

  lemma ForeignKept(sets: seq<ReplicaSet>, s: ReplicaSet, g: Goal)
    requires Foreign(sets, g) && s.created == sets[0].created && s.published == FRESH
    ensures Foreign([sets[0], s] + sets[1..], g)
  {
    var b := [sets[0], s] + sets[1..];
    assert forall i :: 1 < i < |b| ==> b[i] == sets[i - 1];
    forall p, q | 0 <= p < q < |b| ensures b[p].created >= b[q].created {
      assert b[p].created == sets[if p == 0 then 0 else p - 1].created;
      assert b[q].created == sets[q - 1].created;
    }
  }

  lemma {:induction false} ForeignCycle(w: World, w1: World, g: Goal, n: nat) returns (w2: World)
    requires Reaches(w, w1, g, false, 0) && Foreign(w1.sets, g)
    ensures Reaches(w, w2, g, false, n) && Foreign(w2.sets, g)
  {
    if n == 0 {
      w2 := w1;
    } else {
      w2 := ForeignCycle(w, w1, g, n - 1);
      w2 := CreatesAgain(w, w2, g, n - 1);
    }
  }

  lemma ForeignNeverSettles(w: World, g: Goal, i: nat, n: nat) returns (w': World)
    requires NewestFirst(w.sets) && Top(w.sets, i) && w.sets[i].hash.Some? && !Wanted(w.sets[i], WishOf(g))
    ensures Reaches(w, w', g, false, n) && !Converged(w'.sets, g)
  {
    ReachesItself(w, g, false);
    var w1 := ReachFirst(w, w, g, false, 0, i);
    var w2 := ReachSettled(w, w1, g, false, 0);
    assert w2.sets[0].hash == w.sets[i].hash;
    w' := ForeignCycle(w, w2, g, n);
  }

  // ---- Two wanted sets of the newest second ----

  /** Of the wanted hash, selector and count. */
  predicate Filled(s: ReplicaSet, wish: Wish) { Wanted(s, wish) && Cost(s, wish) == 0 }

  predicate Pair(sets: seq<ReplicaSet>, wish: Wish) {
    && |sets| >= 2 && NewestFirst(sets) && sets[0].created == sets[1].created
    && Wanted(sets[0], wish) && Wanted(sets[1], wish)
  }

  /** A status with which a set of the wanted count is ready and in use. */
  function Busy(wish: Wish): Published { Published(Some(1), Some(Absolute(wish.count)), None) }

  /** Two sets in use, all others empty. */
  function PairStatus(sets: seq<ReplicaSet>, wish: Wish): seq<Published> {
    seq(|sets|, i requires 0 <= i < |sets| => if i < 2 then Busy(wish) else FRESH)
  }

  predicate InUse(sets: seq<ReplicaSet>, wish: Wish) {
    && Pair(sets, wish) && sets[0].published == Busy(wish) && sets[1].published == Busy(wish)
    && forall i :: 2 <= i < |sets| ==> Empty(sets[i])
  }

  function Swap(sets: seq<ReplicaSet>): seq<ReplicaSet>
    requires |sets| >= 2
  {
    [sets[1], sets[0]] + sets[2..]
  }

  lemma ReachSwap(w: World, w1: World, g: Goal, late: bool, fair: nat) returns (w2: World)
    requires Reaches(w, w1, g, late, fair) && Pair(w1.sets, WishOf(g))
    ensures w2.sets == Swap(w1.sets) && Pair(w2.sets, WishOf(g)) && Reaches(w, w2, g, late, fair)
  {
    w2 := ReachFirst(w, w1, g, late, fair, 1);
    assert w2.sets == Swap(w1.sets);
  }

  lemma FillFirst(w: World, w1: World, g: Goal, late: bool, fair: nat) returns (w2: World)
    requires Reaches(w, w1, g, late, fair) && Pair(w1.sets, WishOf(g))
    ensures Reaches(w, w2, g, late, fair) && Pair(w2.sets, WishOf(g)) && Filled(w2.sets[0], WishOf(g))
    ensures w2.sets[1..] == w1.sets[1..]
  {
    if Filled(w1.sets[0], WishOf(g)) {
      w2 := w1;
    } else {
      w2 := ReachReconcile(w, w1, g, late, fair);
      assert w2.sets[1..] == w1.sets[1..];
      assert w2.sets[0].created == w1.sets[0].created && w2.sets[1] == w1.sets[1];
      Reweaken(w, w2, g, late, fair + if Settled(w1.sets) then 1 else 0, fair);
    }
  }

  lemma Reweaken(w: World, w1: World, g: Goal, late: bool, fair: nat, less: nat)
    requires Reaches(w, w1, g, late, fair) && less <= fair
    ensures Reaches(w, w1, g, late, less)
  {
    var states, steps :| RunTo(states, steps, w, w1, g, late, fair);
    assert RunTo(states, steps, w, w1, g, late, less);
  }

  predicate BothFilled(sets: seq<ReplicaSet>, wish: Wish) {
    Pair(sets, wish) && Filled(sets[0], wish) && Filled(sets[1], wish)
  }

  /** The second of two filled sets is drained. */
  lemma {:induction false} DrainsSecond(sets: seq<ReplicaSet>, g: Goal, at: Stamp)
    requires InUse(sets, WishOf(g)) && BothFilled(sets, WishOf(g)) && WishOf(g).count != 0
    ensures Settled(sets) && Write(sets, g, at, 1).sets == [sets[0], Drain(sets[1])] + sets[2..]
    ensures Write(sets, g, at, 1).left == 0
  {
    var olds := sets[1..];
    assert olds[0] == sets[1] && olds[1..] == sets[2..];
    assert CleanSet(sets[1], 1) == Progress([Drain(sets[1])], 0, true);
    var rest := CleanOld(sets[2..], 0);
    assert rest.sets == sets[2..] && rest.left == 0;
    assert sets[..1] + ([Drain(sets[1])] + sets[2..]) == [sets[0], Drain(sets[1])] + sets[2..];
  }

  /** And filled again when it is listed first. */
  lemma {:induction false} FillsDrained(a: ReplicaSet, b: ReplicaSet, rest: seq<ReplicaSet>, g: Goal, at: Stamp)
    requires InUse([a, b] + rest, WishOf(g)) && BothFilled([a, b] + rest, WishOf(g)) && WishOf(g).count != 0
    ensures var sets := [Drain(b), a] + rest;
            && Settled(sets) && StageOf(sets, g).FixReplicas?
            && BothFilled(Write(sets, g, at, 1).sets, WishOf(g))
  {
    var all, sets := [a, b] + rest, [Drain(b), a] + rest;
    assert all[0] == a && all[1] == b && forall i :: 2 <= i < |all| ==> all[i] == sets[i];
    var after := Write(sets, g, at, 1).sets;
    assert after[1] == a && forall i :: 2 <= i < |all| ==> after[i] == all[i];
    forall p, q | 0 <= p < q < |after| ensures after[p].created >= after[q].created {
      assert after[p].created == all[p].created && after[q].created == all[q].created;
    }
  }

  lemma ReachInUse(w: World, w1: World, g: Goal, late: bool, fair: nat) returns (w2: World)
    requires Reaches(w, w1, g, late, fair) && BothFilled(w1.sets, WishOf(g))
    ensures Reaches(w, w2, g, late, fair) && InUse(w2.sets, WishOf(g)) && BothFilled(w2.sets, WishOf(g))
  {
    var status := PairStatus(w1.sets, WishOf(g));
    ReachStep(w, w1, g, late, fair, Publishes(status));
    w2 := w1.(sets := Publish(w1.sets, status));
  }

  /** The listing alternates: one set is drained, then filled again. */
  lemma TiedTurn(w: World, w1: World, g: Goal, late: bool, fair: nat) returns (w': World)
    requires Reaches(w, w1, g, late, fair) && BothFilled(w1.sets, WishOf(g)) && WishOf(g).count != 0
    ensures Reaches(w, w', g, late, fair + 2) && BothFilled(w'.sets, WishOf(g))
  {
    var w2 := ReachInUse(w, w1, g, late, fair);
    var a, b, rest := w2.sets[0], w2.sets[1], w2.sets[2..];
    assert w2.sets == [a, b] + rest;
    var w3 := ReachReconcile(w, w2, g, late, fair);
    var at: Stamp :| Avoids(w2.sets, at.name) && w3 == Reconcile(w2, g, at, 1);
    DrainsSecond(w2.sets, g, at);
    assert w3.sets == [a, Drain(b)] + rest;
    PairDrained(a, b, rest, WishOf(g));
    var w4 := ReachSwap(w, w3, g, late, fair + 1);
    assert w4.sets == [Drain(b), a] + rest;
    w' := ReachReconcile(w, w4, g, late, fair + 1);
    var at': Stamp :| Avoids(w4.sets, at'.name) && w' == Reconcile(w4, g, at', 1);
    FillsDrained(a, b, rest, g, at');
  }

  lemma PairDrained(a: ReplicaSet, b: ReplicaSet, rest: seq<ReplicaSet>, wish: Wish)
    requires Pair([a, b] + rest, wish)
    ensures Pair([a, Drain(b)] + rest, wish)
  {
    var all, after := [a, b] + rest, [a, Drain(b)] + rest;
    forall p, q | 0 <= p < q < |after| ensures after[p].created >= after[q].created {
      assert after[p].created == all[p].created && after[q].created == all[q].created;
    }
    assert all[0] == a && all[1] == b;
  }

  lemma {:induction false} TiedCycle(w: World, w1: World, g: Goal, late: bool, n: nat) returns (w2: World)
    requires Reaches(w, w1, g, late, 0) && BothFilled(w1.sets, WishOf(g)) && WishOf(g).count != 0
    ensures Reaches(w, w2, g, late, n) && BothFilled(w2.sets, WishOf(g))
  {
    if n == 0 {
      w2 := w1;
    } else {
      var w0 := TiedCycle(w, w1, g, late, n - 1);
      w2 := TiedTurn(w, w0, g, late, n - 1);
      Reweaken(w, w2, g, late, n + 1, n);
    }
  }

  lemma ReachPair(w: World, g: Goal, late: bool, i: nat, j: nat) returns (w': World)
    requires NewestFirst(w.sets) && i < j && Top(w.sets, i) && Top(w.sets, j)
    requires Wanted(w.sets[i], WishOf(g)) && Wanted(w.sets[j], WishOf(g))
    ensures Reaches(w, w', g, late, 0) && Pair(w'.sets, WishOf(g))
  {
    ReachesItself(w, g, late);
    var w1 := ReachFirst(w, w, g, late, 0, j);
    assert w1.sets[i + 1] == w.sets[i] && w1.sets[0] == w.sets[j];
    w' := ReachFirst(w, w1, g, late, 0, i + 1);
    assert w'.sets[0] == w.sets[i] && w'.sets[1] == w.sets[j];
  }

  lemma TiedNeverSettles(w: World, g: Goal, late: bool, i: nat, j: nat, n: nat) returns (w': World)
    requires NewestFirst(w.sets) && i < j && Top(w.sets, i) && Top(w.sets, j) && WishOf(g).count != 0
    requires Wanted(w.sets[i], WishOf(g)) && Wanted(w.sets[j], WishOf(g))
    ensures Reaches(w, w', g, late, n) && !Converged(w'.sets, g)
  {
    var w1 := ReachPair(w, g, late, i, j);
    var w2 := FillFirst(w, w1, g, late, 0);
    var w3 := ReachSwap(w, w2, g, late, 0);
    var w4 := FillFirst(w, w3, g, late, 0);
    assert w4.sets[1] == w4.sets[1..][0] == w3.sets[1..][0] == w2.sets[0];
    w' := TiedCycle(w, w4, g, late, n);
  }

  // ---- Exactly the starts that settle ----

  lemma {:induction false} FindContender(sets: seq<ReplicaSet>, second: int, wish: Wish) returns (i: nat)
    requires Total(sets, Contenders(second, wish)) >= 1
    ensures i < |sets| && sets[i].created == second && Wanted(sets[i], wish)
  {
    if sets[0].created == second && Wanted(sets[0], wish) {
      i := 0;
    } else {
      i := FindContender(sets[1..], second, wish);
      i := i + 1;
    }
  }

  lemma {:induction false} FindContenders(sets: seq<ReplicaSet>, second: int, wish: Wish) returns (i: nat, j: nat)
    requires Total(sets, Contenders(second, wish)) >= 2
    ensures i < j < |sets| && sets[i].created == sets[j].created == second
    ensures Wanted(sets[i], wish) && Wanted(sets[j], wish)
  {
    if sets[0].created == second && Wanted(sets[0], wish) {
      j := FindContender(sets[1..], second, wish);
      i, j := 0, j + 1;
    } else {
      i, j := FindContenders(sets[1..], second, wish);
      i, j := i + 1, j + 1;
    }
  }

  /** From any other start some run has as many fair reconciles as one likes, and does
      not end with the wanted set alone. */
  lemma NeverSettles(w: World, g: Goal, late: bool, n: nat) returns (w': World)
    requires NewestFirst(w.sets) && !Settles(w.sets, WishOf(g), late)
    ensures Reaches(w, w', g, late, n) && !Converged(w'.sets, g)
  {
    var sets, wish := w.sets, WishOf(g);
    if i :| 0 <= i < |sets| && Top(sets, i) && !(sets[i].hash.Some? && (late || Wanted(sets[i], wish))) {
      if sets[i].hash.None? {
        w' := UnlabelledNeverSettles(w, g, late, i, n);
      } else {
        w' := ForeignNeverSettles(w, g, i, n);
      }
    } else {
      var i, j := FindContenders(sets, sets[0].created, wish);
      w' := TiedNeverSettles(w, g, late, i, j, n);
    }
  }

  /** Every run from `w` with more fair reconciles than this has converged. */
  ghost predicate EndsWithin(w: World, g: Goal, late: bool, bound: nat) {
    forall w' :: Reaches(w, w', g, late, bound + 1) ==> Converged(w'.sets, g)
  }

  lemma SettlingEnds(w: World, g: Goal, late: bool)
    requires NewestFirst(w.sets) && Settles(w.sets, WishOf(g), late)
    ensures EndsWithin(w, g, late, Measure(w.sets, WishOf(g)))
  {
    var fair := Measure(w.sets, WishOf(g)) + 1;
    forall w' | Reaches(w, w', g, late, fair) ensures Converged(w'.sets, g) {
      var states, steps :| RunTo(states, steps, w, w', g, late, fair);
      RolloutConverges(states, g, steps, late);
    }
  }

  /** A rollout must end exactly when its start settles: for every start and whether or
      not sets may be created in the second of the newest. */
  lemma EndsIffSettles(w: World, g: Goal, late: bool)
    requires NewestFirst(w.sets)
    ensures (exists bound: nat :: EndsWithin(w, g, late, bound)) <==> Settles(w.sets, WishOf(g), late)
  {
    if Settles(w.sets, WishOf(g), late) {
      SettlingEnds(w, g, late);
    } else {
      forall bound: nat ensures !EndsWithin(w, g, late, bound) {
        var w' := NeverSettles(w, g, late, bound + 1);
      }
    }
  }
}
