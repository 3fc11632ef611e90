/** How many runners to add, and which owners to give up, given what the pods
    of the owners with the desired template are doing. */
module Allocation {
  import opened Basics
  import opened Cluster
  import opened StableOrder

  /** An owner as one synchronisation sees it. */
  datatype View = View(id: nat, hash: string, created: int, total: nat, running: nat, pending: nat)

  function CreatedAt(v: View): int { v.created }

  /** Runners in a list of owners, and those that run or may soon run. */
  function RunningPods(vs: seq<View>): nat {
    if vs == [] then 0 else vs[0].running + RunningPods(vs[1..])
  }

  function MaybeRunning(vs: seq<View>): nat {
    if vs == [] then 0 else vs[0].running + vs[0].pending + MaybeRunning(vs[1..])
  }

  /** What a newest-first pass retains, counting running pods. */
  function Retained(vs: seq<View>, desired: int): int {
    if vs == [] then 0
    else
      var r := Retained(vs[1..], desired);
      if vs[0].running == 0 || r >= desired then r else r + vs[0].running
  }

  /** Owner `i` of a list sorted oldest first is given up. */
  predicate GivenUp(vs: seq<View>, desired: int, i: nat)
    requires i < |vs|
  {
    vs[i].running == 0 || Retained(vs[i + 1..], desired) >= desired
  }

  /** The indices given up, newest first. */
  function Redundant(vs: seq<View>, desired: int, from: nat): (r: seq<nat>)
    requires from <= |vs|
    ensures forall i :: i in r <==> from <= i < |vs| && GivenUp(vs, desired, i)
    ensures forall k :: 0 <= k < |r| ==> from <= r[k] < |vs|
    decreases |vs| - from
  {
    if from == |vs| then []
    else Redundant(vs, desired, from + 1) + (if GivenUp(vs, desired, from) then [from] else [])
  }

  /** The pass itself: newest owner first, stop retaining once enough run. */
  method SelectRedundant(vs: seq<View>, desired: int) returns (retained: int, redundant: seq<nat>)
    ensures retained == Retained(vs, desired)
    ensures redundant == Redundant(vs, desired, 0)
  {
    retained, redundant := 0, [];
    var i := |vs|;
    while i > 0
      invariant 0 <= i <= |vs|
      invariant retained == Retained(vs[i..], desired)
      invariant redundant == Redundant(vs, desired, i)
    {
      i := i - 1;
      assert vs[i..][1..] == vs[i + 1..];
      if vs[i].running == 0 || retained >= desired {
        redundant := redundant + [i];
      } else if retained < desired {
        retained := retained + vs[i].running;
      }
    }
    assert vs[0..] == vs;
  }

  /** The "invalid state" panic needs more desired than running owners offer. */
  lemma {:induction false} RetainsEnough(vs: seq<View>, desired: int)
    ensures Retained(vs, desired) >= Min(desired, RunningPods(vs))
  {
    if vs != [] {
      RetainsEnough(vs[1..], desired);
    }
  }

  /** With at most one running pod per owner the pass retains exactly enough. */
  lemma {:induction false} RetainsExactly(vs: seq<View>, desired: int)
    requires desired >= 0
    requires forall i :: 0 <= i < |vs| ==> vs[i].running <= 1
    ensures Retained(vs, desired) == Min(desired, RunningPods(vs))
  {
    if vs != [] {
      RetainsExactly(vs[1..], desired);
    }
  }

  /** Running pods of the owners that are kept. */
  function RunningKept(vs: seq<View>, desired: int, from: nat): nat
    requires from <= |vs|
    decreases |vs| - from
  {
    if from == |vs| then 0
    else (if GivenUp(vs, desired, from) then 0 else vs[from].running) + RunningKept(vs, desired, from + 1)
  }

  lemma {:induction false} KeptIsRetained(vs: seq<View>, desired: int, from: nat)
    requires from <= |vs|
    ensures RunningKept(vs, desired, from) == Retained(vs[from..], desired)
    decreases |vs| - from
  {
    if from < |vs| {
      assert vs[from..][1..] == vs[from + 1..];
      KeptIsRetained(vs, desired, from + 1);
    }
  }

  lemma {:induction false} RetainedGrows(vs: seq<View>, desired: int, i: nat, j: nat)
    requires i <= j <= |vs|
    ensures Retained(vs[j..], desired) <= Retained(vs[i..], desired)
    decreases j - i
  {
    if i < j {
      assert vs[i..][1..] == vs[i + 1..];
      RetainedGrows(vs, desired, i + 1, j);
    }
  }

  lemma KeptIsNewer(vs: seq<View>, desired: int, i: nat, j: nat)
    requires Sorted(vs, CreatedAt) && i < |vs| && j < |vs|
    requires !GivenUp(vs, desired, i) && GivenUp(vs, desired, j) && vs[j].running > 0
    ensures j < i && vs[j].created <= vs[i].created
  {
    if i <= j {
      RetainedGrows(vs, desired, i + 1, j + 1);
    }
    assert CreatedAt(vs[j]) <= CreatedAt(vs[i]);
  }

  /** Scale-down of owners sorted oldest first, as the stable sort by creation time
      leaves them: the kept owners hold exactly the desired number of running pods,
      and an owner given up although it runs is no newer than any that is kept. */
  lemma ScaleDownKeepsNewest(vs: seq<View>, desired: int)
    requires Sorted(vs, CreatedAt)
    requires 0 <= desired <= RunningPods(vs)
    requires forall i :: 0 <= i < |vs| ==> vs[i].running <= 1
    ensures RunningKept(vs, desired, 0) == desired
    ensures forall i, j ::
              0 <= i < |vs| && 0 <= j < |vs| && !GivenUp(vs, desired, i) && GivenUp(vs, desired, j)
              && vs[j].running > 0 ==>
                j < i && vs[j].created <= vs[i].created
  {
    RetainsExactly(vs, desired);
    KeptIsRetained(vs, desired, 0);
    assert vs[0..] == vs;
    forall i, j | 0 <= i < |vs| && 0 <= j < |vs| && !GivenUp(vs, desired, i) && GivenUp(vs, desired, j)
                  && vs[j].running > 0
      ensures j < i && vs[j].created <= vs[i].created
    {
      KeptIsNewer(vs, desired, i, j);
    }
  }

  /** What a synchronisation decides about the owners of the desired template. */
  datatype Plan = Create(count: nat) | MarkRedundant | WaitForSync | InvalidState | LeaveAsIs

  /** The last sync is younger than the reason to have more runners. */
  predicate SyncedAfterEffectiveTime(ephemeral: bool, lastSync: Option<int>, effective: Option<int>) {
    ephemeral && lastSync.Some? && effective.Some? && lastSync.value > effective.value
  }

  predicate WithinRecreationDelay(lastSync: Option<int>, now: int) {
    lastSync.Some? && now < lastSync.value + RECREATION_DELAY
  }

  function Decide(vs: seq<View>, desired: int, ephemeral: bool, lastSync: Option<int>, effective: Option<int>,
                  now: int): Plan
  {
    if desired > MaybeRunning(vs) then
      if SyncedAfterEffectiveTime(ephemeral, lastSync, effective) && WithinRecreationDelay(lastSync, now)
      then LeaveAsIs
      else Create(desired - MaybeRunning(vs))
    else if desired <= RunningPods(vs) then
      var retained := Retained(vs, desired);
      if retained == desired then MarkRedundant
      else if retained > desired then WaitForSync
      else InvalidState
    else LeaveAsIs
  }

  /** The panic in the scale-down branch is unreachable, for any owners and any count. */
  lemma NeverInvalid(vs: seq<View>, desired: int, ephemeral: bool, lastSync: Option<int>, effective: Option<int>,
                     now: int)
    ensures !Decide(vs, desired, ephemeral, lastSync, effective, now).InvalidState?
  {
    RetainsEnough(vs, desired);
  }
}
