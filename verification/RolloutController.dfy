/** The runner deployment reconciler as the source runs it, proved against Rollout. */
module RolloutController {
  import opened Basics
  import opened StableOrder
  import opened Rollout

  function Age(s: ReplicaSet): int { -s.created }

  /** The source's sort promises an order by age and nothing about sets of one second. */
  method SortNewestFirst(listing: seq<ReplicaSet>) returns (mine: seq<ReplicaSet>)
    ensures NewestFirst(mine) && multiset(mine) == multiset(listing)
  {
    mine := StableSort(listing, Age);
    StableSortIsPermutation(mine, listing, Age);
    forall i, j | 0 <= i < j < |mine| ensures mine[i].created >= mine[j].created {
      assert Age(mine[i]) <= Age(mine[j]);
    }
  }

  function Without(sets: seq<ReplicaSet>, name: nat): seq<ReplicaSet> {
    if sets == [] then []
    else (if sets[0].name == name then [] else [sets[0]]) + Without(sets[1..], name)
  }

  lemma {:induction false} WithoutNone(sets: seq<ReplicaSet>, name: nat)
    requires Avoids(sets, name)
    ensures Without(sets, name) == sets
  {
    if sets != [] {
      WithoutNone(sets[1..], name);
    }
  }

  lemma {:induction false} WithoutAt(sets: seq<ReplicaSet>, k: nat)
    requires Distinct(sets) && k < |sets|
    ensures Without(sets, sets[k].name) == sets[..k] + sets[k + 1..]
  {
    if k == 0 {
      WithoutNone(sets[1..], sets[0].name);
    } else {
      assert sets[0].name != sets[k].name;
      WithoutAt(sets[1..], k - 1);
      assert sets[..k] == [sets[0]] + sets[1..][..k - 1];
    }
  }

  lemma PrependTwice(a: seq<ReplicaSet>, b: seq<ReplicaSet>, p: Progress)
    ensures Prepend(a, Prepend(b, p)) == Prepend(a + b, p)
  {
    assert a + (b + p.sets) == a + b + p.sets;
  }

  /** One round of the loop over the old sets. */
  lemma CleanOldStep(done: seq<ReplicaSet>, olds: seq<ReplicaSet>, budget: nat)
    requires olds != [] && CleanSet(olds[0], budget).ok
    ensures var p := CleanSet(olds[0], budget);
            Prepend(done, CleanOld(olds, budget)) == Prepend(done + p.sets, CleanOld(olds[1..], p.left))
  {
    var p := CleanSet(olds[0], budget);
    PrependTwice(done, p.sets, CleanOld(olds[1..], p.left));
  }

  lemma CleanOldStops(done: seq<ReplicaSet>, olds: seq<ReplicaSet>, budget: nat)
    requires olds != [] && !CleanSet(olds[0], budget).ok
    ensures var p := CleanSet(olds[0], budget);
            Prepend(done, CleanOld(olds, budget)) == Progress(done + p.sets + olds[1..], p.left, false)
  {
    assert done + olds == done + [olds[0]] + olds[1..];
  }

  /** Writing or deleting one set keeps the names distinct. */
  lemma WriteOneKeepsNames(a: seq<ReplicaSet>, rs: ReplicaSet, part: seq<ReplicaSet>, b: seq<ReplicaSet>)
    requires Distinct(a + [rs] + b) && (part == [] || (|part| == 1 && part[0].name == rs.name))
    ensures Distinct(a + part + b)
  {
    var before, after := a + [rs] + b, a + part + b;
    forall i, j | 0 <= i < j < |after| ensures after[i].name != after[j].name {
      var shift := 1 - |part|;
      var i', j' := if i < |a| then i else i + shift, if j < |a| then j else j + shift;
      assert before[i'].name == after[i].name && before[j'].name == after[j].name;
    }
  }

  class RolloutWorld {
    var sets: seq<ReplicaSet>
    var status: Option<Totals>
    var budget: nat

    constructor (w: World, writes: nat)
      ensures sets == w.sets && status == w.status && budget == writes
    {
      sets, status, budget := w.sets, w.status, writes;
    }

    /** One call to the API server; fails once the budget is used up. */
    method Call() returns (ok: bool)
      modifies this`budget
      ensures ok <==> old(budget) > 0
      ensures budget == if ok then old(budget) - 1 else 0
    {
      ok := budget > 0;
      if ok {
        budget := budget - 1;
      }
    }

    /** Replaces the set named like `s`. */
    method Update(s: ReplicaSet, ghost k: nat) returns (ok: bool)
      requires Distinct(sets) && k < |sets| && sets[k].name == s.name
      modifies this`sets, this`budget
      ensures ok <==> old(budget) > 0
      ensures budget == if ok then old(budget) - 1 else 0
      ensures sets == if ok then old(sets)[k := s] else old(sets)
    {
      ok := Call();
      if ok {
        var before := sets;
        sets := seq(|before|, i requires 0 <= i < |before| => if before[i].name == s.name then s else before[i]);
      }
    }

    method Delete(s: ReplicaSet, ghost k: nat) returns (ok: bool)
      requires Distinct(sets) && k < |sets| && sets[k].name == s.name
      modifies this`sets, this`budget
      ensures ok <==> old(budget) > 0
      ensures budget == if ok then old(budget) - 1 else 0
      ensures sets == if ok then old(sets)[..k] + old(sets)[k + 1..] else old(sets)
    {
      ok := Call();
      if ok {
        WithoutAt(sets, k);
        sets := Without(sets, s.name);
      }
    }

    /** One old set: wait, drain or delete. */
    method CleanOne(rs: ReplicaSet, ghost a: seq<ReplicaSet>, ghost b: seq<ReplicaSet>) returns (ok: bool)
      requires sets == a + [rs] + b && Distinct(sets)
      modifies this`sets, this`budget
      ensures Distinct(sets)
      ensures var p := CleanSet(rs, old(budget)); sets == a + p.sets + b && budget == p.left && ok == p.ok
    {
      assert sets[|a|] == rs;
      if rs.published.replicas.Some? && rs.published.replicas.value > 0 {
        if rs.spec.replicas.Some? && rs.spec.replicas.value == 0 {
          return true;
        }
        var drained := rs.(spec := rs.spec.(replicas := Some(0)));
        WriteOneKeepsNames(a, rs, [drained], b);
        ok := Update(drained, |a|);
        assert sets == a + (if ok then [drained] else [rs]) + b;
        return;
      }
      WriteOneKeepsNames(a, rs, [], b);
      ok := Delete(rs, |a|);
      assert ok ==> sets == a + [] + b;
    }

    /** The loop over the old sets. */
    method CleanUpOld(ghost newest: seq<ReplicaSet>, olds: seq<ReplicaSet>) returns (ok: bool)
      requires sets == newest + olds && Distinct(sets)
      modifies this`sets, this`budget
      ensures Progress(sets, budget, ok) == Prepend(newest, CleanOld(olds, old(budget)))
    {
      ghost var done, all := newest, Prepend(newest, CleanOld(olds, budget));
      assert olds[0..] == olds;
      for i := 0 to |olds|
        invariant sets == done + olds[i..] && Distinct(sets)
        invariant all == Prepend(done, CleanOld(olds[i..], budget))
      {
        ghost var p, rest := CleanSet(olds[i], budget), olds[i + 1..];
        if p.ok {
          CleanOldStep(done, olds[i..], budget);
        } else {
          CleanOldStops(done, olds[i..], budget);
        }
        assert olds[i..][1..] == rest;
        assert sets == done + [olds[i]] + rest;
        ok := CleanOne(olds[i], done, rest);
        done := done + p.sets;
        if !ok {
          return;
        }
      }
      assert sets == done + [];
      return true;
    }

    /** Publishes the totals of the listed sets, unless they are published already. */
    method PatchStatus(listed: seq<ReplicaSet>, g: Goal) returns (reply: Outcome)
      requires listed != []
      modifies this`status, this`budget
      ensures status == if old(budget) > 0 then Some(TotalsOf(listed, g)) else old(status)
      ensures reply == if old(budget) == 0 && old(status) != Some(TotalsOf(listed, g)) then RequeueNow else Finished
    {
      var replicas, available := SumStatus(listed);
      var updated := if listed[0].published.replicas.Some? then listed[0].published.replicas.value else 0;
      var totals := Totals(available, available, OrDefault(g.spec.replicas, 1), replicas, updated);
      if status != Some(totals) {
        var ok := Call();
        if !ok {
          return RequeueNow;
        }
        status := Some(totals);
      }
      return Finished;
    }

    method CreateSet(s: ReplicaSet) returns (ok: bool)
      modifies this`sets, this`budget
      ensures ok <==> old(budget) > 0
      ensures sets == if ok then [s] + old(sets) else old(sets)
    {
      ok := Call();
      if ok {
        sets := [s] + sets;
      }
    }

    /** The rest of a reconcile, once the newest set is the wanted one. */
    method RetireOld(g: Goal, mine: seq<ReplicaSet>, ghost at: Stamp) returns (reply: Outcome)
      requires mine == sets && Distinct(sets) && StageOf(sets, g).CleanUp?
      modifies this
      ensures World(sets, status) == Rollout.Reconcile(old(World(sets, status)), g, at, old(budget))
      ensures reply == Reply(old(World(sets, status)), g, at, old(budget))
    {
      if |mine| > 1 {
        var ready, current := OrDefault(mine[0].published.ready, 0), OrDefault(mine[0].spec.replicas, 1);
        if ready < current {
          return Finished;
        }
        assert sets == mine[..1] + mine[1..];
        var ok := CleanUpOld(mine[..1], mine[1..]);
        if !ok {
          return Failed;
        }
      }
      reply := PatchStatus(mine, g);
    }

    /** One reconcile, from a listing of the sets in any order. `mine` is the order in
        which the sort leaves them, and in which the model goes on to keep them. */
    method Reconcile(g: Goal, listing: seq<ReplicaSet>, at: Stamp) returns (reply: Outcome, ghost mine: seq<ReplicaSet>)
      requires Distinct(sets) && multiset(sets) == multiset(listing)
      modifies this
      ensures NewestFirst(mine) && multiset(mine) == multiset(old(sets))
      ensures World(sets, status) == Rollout.Reconcile(World(mine, old(status)), g, at, old(budget))
      ensures reply == Reply(World(mine, old(status)), g, at, old(budget))
    {
      RelistKeepsNames(sets, listing);
      sets := SortNewestFirst(listing);
      RelistKeepsNames(listing, sets);
      mine := sets;
      reply := ReconcileSorted(g, sets, at);
    }

    method ReconcileSorted(g: Goal, mine: seq<ReplicaSet>, at: Stamp) returns (reply: Outcome)
      requires Distinct(sets) && mine == sets
      modifies this
      ensures World(sets, status) == Rollout.Reconcile(old(World(sets, status)), g, at, old(budget))
      ensures reply == Reply(old(World(sets, status)), g, at, old(budget))
    {
      if mine == [] {
        var ok := CreateSet(NewSet(g, at));
        return if ok then Finished else Failed;
      }
      var newest := mine[0];
      if newest.hash.None? {
        return Finished;
      }
      if newest.hash.value != g.hash {
        var ok := CreateSet(NewSet(g, at));
        return if ok then RequeueLater else Failed;
      }
      if newest.spec.selector != g.spec.selector {
        var ok := Update(newest.(spec := g.spec), 0);
        return if ok then RequeueLater else Failed;
      }
      var current, desired := OrDefault(newest.spec.replicas, 1), OrDefault(g.spec.replicas, 1);
      if current != desired {
        var ok := Update(newest.(spec := newest.spec.(replicas := Some(desired), effective := g.spec.effective)), 0);
        return if ok then Finished else Failed;
      }
      reply := RetireOld(g, mine, at);
    }
  }

  /** Totals over the replica counts the listed sets have published. */
  method SumStatus(sets: seq<ReplicaSet>) returns (replicas: int, available: int)
    ensures replicas == SumReplicas(sets) && available == SumAvailable(sets)
  {
    replicas, available := 0, 0;
    for i := 0 to |sets|
      invariant replicas == SumReplicas(sets[..i]) && available == SumAvailable(sets[..i])
    {
      assert sets[..i + 1][..i] == sets[..i];
      if sets[i].published.replicas.Some? {
        replicas := replicas + sets[i].published.replicas.value;
      }
      if sets[i].published.available.Some? {
        available := available + sets[i].published.available.value;
      }
    }
    assert sets[..|sets|] == sets;
  }
}
