/** Runner groups visible to a repository, kept in order of precedence. */
module RunnerGroups {
  import opened StableOrder

  datatype Scope = Organization | Enterprise
  datatype Kind = DefaultGroup | CustomGroup
  datatype RunnerGroup = RunnerGroup(scope: Scope, kind: Kind, name: string)

  /** An empty name stands for the default group. */
  function NewRunnerGroup(scope: Scope, name: string): RunnerGroup {
    if name == "" then RunnerGroup(scope, DefaultGroup, "") else RunnerGroup(scope, CustomGroup, name)
  }

  function FromProperties(enterprise: string, group: string): RunnerGroup {
    NewRunnerGroup(if enterprise != "" then Enterprise else Organization, group)
  }

  /** Precedence, highest first: default before custom, then organization before enterprise. */
  function Rank(g: RunnerGroup): int {
    (if g.kind.CustomGroup? then 2 else 0) + (if g.scope.Enterprise? then 1 else 0)
  }

  /** The insertion predicate of Add: `rg` goes before `data`. */
  predicate GoesBefore(rg: RunnerGroup, data: RunnerGroup) {
    if rg.kind.CustomGroup? && data.kind.DefaultGroup? then false
    else if rg.kind.DefaultGroup? && data.kind.CustomGroup? then true
    else if rg.scope.Enterprise? && data.scope.Organization? then false
    else if rg.scope.Organization? && data.scope.Enterprise? then true
    else false
  }

  /** What the callback of Traverse says about one group. */
  datatype Visit = Accept | Skip | Fail

  /** Where a traversal ends: the first group that is not skipped. */
  function StopsAt(groups: seq<RunnerGroup>, f: RunnerGroup -> Visit): (i: nat)
    ensures i <= |groups| && (i < |groups| ==> !f(groups[i]).Skip?)
    ensures forall j :: 0 <= j < i ==> f(groups[j]).Skip?
  {
    if groups == [] then 0
    else if !f(groups[0]).Skip? then 0
    else 1 + StopsAt(groups[1..], f)
  }

  class VisibleRunnerGroups {
    var sortedGroups: seq<RunnerGroup>
    /** The groups in the order in which they were added. */
    ghost var added: seq<RunnerGroup>

    ghost predicate Valid()
      reads this
    {
      StableSortOf(sortedGroups, added, Rank)
    }

    constructor ()
      ensures Valid() && added == [] && sortedGroups == []
    {
      sortedGroups, added := [], [];
    }

    /** sort.Search over the insertion predicate. */
    method Search(rg: RunnerGroup) returns (i: nat)
      requires Valid()
      ensures InsertionPoint(sortedGroups, Rank, Rank(rg), i)
    {
      i := 0;
      var j := |sortedGroups|;
      while i < j
        invariant 0 <= i <= j <= |sortedGroups|
        invariant forall k :: 0 <= k < i ==> Rank(sortedGroups[k]) <= Rank(rg)
        invariant forall k :: j <= k < |sortedGroups| ==> Rank(rg) < Rank(sortedGroups[k])
      {
        var h := i + (j - i) / 2;
        assert GoesBefore(rg, sortedGroups[h]) <==> Rank(rg) < Rank(sortedGroups[h]);
        if !GoesBefore(rg, sortedGroups[h]) {
          i := h + 1;
        } else {
          j := h;
        }
      }
    }

    /** After any sequence of Adds the list is the stable sort of that sequence. */
    method Add(rg: RunnerGroup)
      requires Valid()
      modifies this
      ensures Valid() && added == old(added) + [rg]
    {
      var i := Search(rg);
      InsertKeepsStable(sortedGroups, added, Rank, rg, i);
      sortedGroups := sortedGroups[..i] + [rg] + sortedGroups[i..];
      added := added + [rg];
    }

    method Includes(ref: RunnerGroup) returns (found: bool)
      ensures found <==> ref in sortedGroups
    {
      for i := 0 to |sortedGroups|
        invariant ref !in sortedGroups[..i]
      {
        if sortedGroups[i] == ref {
          return true;
        }
      }
      return false;
    }

    /** Calls `f` in order of precedence until it accepts or fails. */
    method Traverse(f: RunnerGroup -> Visit) returns (i: nat)
      ensures i == StopsAt(sortedGroups, f)
    {
      i := 0;
      while i < |sortedGroups|
        invariant 0 <= i <= |sortedGroups|
        invariant StopsAt(sortedGroups, f) == i + StopsAt(sortedGroups[i..], f)
      {
        if !f(sortedGroups[i]).Skip? {
          return;
        }
        assert sortedGroups[i..][1..] == sortedGroups[i + 1..];
        i := i + 1;
      }
    }
  }

  lemma {:induction false} StopsAfter(a: seq<RunnerGroup>, g: RunnerGroup, b: seq<RunnerGroup>, f: RunnerGroup -> Visit)
    requires !f(g).Skip? && forall k :: 0 <= k < |a| ==> f(a[k]).Skip?
    ensures StopsAt(a + [g] + b, f) == |a|
  {
    var s := a + [g] + b;
    var i := StopsAt(s, f);
    assert s[|a|] == g && forall k :: 0 <= k < |a| ==> s[k] == a[k];
  }

  lemma {:induction false} ClassAround(s: seq<RunnerGroup>, i: nat)
    requires i < |s|
    ensures var r := Rank(s[i]);
            WithKey(s, Rank, r) == WithKey(s[..i], Rank, r) + [s[i]] + WithKey(s[i + 1..], Rank, r)
  {
    var g, r := s[i], Rank(s[i]);
    assert s == s[..i] + [g] + s[i + 1..];
    WithKeyConcat(s[..i] + [g], s[i + 1..], Rank, r);
    WithKeyConcat(s[..i], [g], Rank, r);
    assert WithKey([g], Rank, r) == [g];
  }

  /** The class of equals is cut where the list is. */
  lemma {:induction false} ClassStopsAt(groups: seq<RunnerGroup>, f: RunnerGroup -> Visit, i: nat)
    requires i == StopsAt(groups, f) && i < |groups|
    ensures var equals := WithKey(groups, Rank, Rank(groups[i]));
            StopsAt(equals, f) < |equals| && equals[StopsAt(equals, f)] == groups[i]
  {
    var g, r := groups[i], Rank(groups[i]);
    var a, b := WithKey(groups[..i], Rank, r), WithKey(groups[i + 1..], Rank, r);
    ClassAround(groups, i);
    forall k | 0 <= k < |a| ensures f(a[k]).Skip? {
      WithKeyMember(groups[..i], Rank, r, a[k]);
    }
    StopsAfter(a, g, b, f);
  }

  /** The group where a traversal stops has the highest precedence of all groups that
      the callback does not skip, and among its equals it was added first. */
  lemma {:induction false} TraversalStopsAtHighest(
    groups: seq<RunnerGroup>, added: seq<RunnerGroup>, f: RunnerGroup -> Visit)
    requires StableSortOf(groups, added, Rank) && StopsAt(groups, f) < |groups|
    ensures var g := groups[StopsAt(groups, f)];
            && g in added && !f(g).Skip?
            && (forall h :: h in added && !f(h).Skip? ==> Rank(g) <= Rank(h))
    ensures var g := groups[StopsAt(groups, f)];
            var equals := WithKey(added, Rank, Rank(g));
            StopsAt(equals, f) < |equals| && equals[StopsAt(equals, f)] == g
  {
    var g := groups[StopsAt(groups, f)];
    StableSortIsPermutation(groups, added, Rank);
    forall h | h in added && !f(h).Skip? ensures Rank(g) <= Rank(h) {
      assert h in groups;
      var j :| 0 <= j < |groups| && groups[j] == h;
    }
    ClassStopsAt(groups, f, StopsAt(groups, f));
  }

  /** The precedence itself: no custom group stands before a default one, and of two
      groups of a kind no enterprise's stands before an organization's. */
  lemma OrderOfPrecedence(groups: seq<RunnerGroup>, added: seq<RunnerGroup>, i: nat, j: nat)
    requires StableSortOf(groups, added, Rank) && i < j < |groups|
    ensures !(groups[i].kind.CustomGroup? && groups[j].kind.DefaultGroup?)
    ensures groups[i].kind == groups[j].kind ==> !(groups[i].scope.Enterprise? && groups[j].scope.Organization?)
  {
    assert Rank(groups[i]) <= Rank(groups[j]);
  }
}
