/** The ledger of capacity reservations that webhooks append to and cancel from. */
module Reservations {
  import opened Basics

  datatype Reservation = Reservation(effective: int, expires: int, replicas: int)

  type Ledger = seq<Reservation>

  /** The reservations not expired at `now`. */
  function Active(l: Ledger, now: int): (r: Ledger)
    ensures forall i :: 0 <= i < |r| ==> r[i].expires > now
  {
    if l == [] then []
    else Active(l[..|l| - 1], now) + (if l[|l| - 1].expires > now then [l[|l| - 1]] else [])
  }

  /** Replicas reserved at `now`. */
  function Reserved(l: Ledger, now: int): int {
    if l == [] then 0
    else Reserved(l[..|l| - 1], now) + (if l[|l| - 1].expires > now then l[|l| - 1].replicas else 0)
  }

  /** Position of the first reservation that `amount` cancels, or the length. */
  function FirstMatch(l: Ledger, amount: int): (i: nat)
    ensures i <= |l| && (i < |l| ==> l[i].replicas + amount == 0)
    ensures forall j :: 0 <= j < i ==> l[j].replicas + amount != 0
  {
    if l == [] then 0
    else if l[0].replicas + amount == 0 then 0
    else 1 + FirstMatch(l[1..], amount)
  }

  /** The reservation that `amount` cancels. */
  function Cancelled(l: Ledger, amount: int): Option<Reservation> {
    if FirstMatch(l, amount) < |l| then Some(l[FirstMatch(l, amount)]) else None
  }

  function Cancel(l: Ledger, amount: int): Ledger {
    var i := FirstMatch(l, amount);
    if i < |l| then l[..i] + l[i + 1..] else l
  }

  /** One webhook. The clock is read twice: for pruning and for the new reservation.
      Clock readings and durations are nanoseconds. */
  datatype Hook = Hook(amount: int, duration: int, now: int, later: int)

  function Amount(h: Hook): int { if h.amount != 0 then h.amount else 1 }

  function NewReservation(h: Hook): Reservation {
    Reservation(Stored(h.later), Stored(h.later + h.duration), Amount(h))
  }

  /** What tryScale stores. */
  function Scale(l: Ledger, h: Hook): Ledger {
    if Amount(h) > 0 then Active(l, h.now) + [NewReservation(h)] else Cancel(Active(l, h.now), Amount(h))
  }

  // ---- The loops of the source ----

  method GetValidCapacityReservations(l: Ledger, now: int) returns (valid: Ledger)
    ensures valid == Active(l, now)
  {
    valid := [];
    for i := 0 to |l|
      invariant valid == Active(l[..i], now)
    {
      assert l[..i + 1][..i] == l[..i];
      if l[i].expires > now {
        valid := valid + [l[i]];
      }
    }
    assert l[..|l|] == l;
  }

  method CancelReservation(l: Ledger, amount: int) returns (rest: Ledger)
    ensures rest == Cancel(l, amount)
  {
    rest := [];
    var found := false;
    ghost var n := FirstMatch(l, amount);
    for i := 0 to |l|
      invariant found <==> n < i
      invariant rest == if found then l[..n] + l[n + 1..i] else l[..i]
    {
      if !found && l[i].replicas + amount == 0 {
        found := true;
        assert l[n + 1..i + 1] == [];
      } else {
        rest := rest + [l[i]];
      }
    }
  }

  method SumReserved(l: Ledger, now: int) returns (reserved: int)
    ensures reserved == Reserved(l, now)
  {
    reserved := 0;
    for i := 0 to |l|
      invariant reserved == Reserved(l[..i], now)
    {
      assert l[..i + 1][..i] == l[..i];
      if l[i].expires > now {
        reserved := reserved + l[i].replicas;
      }
    }
    assert l[..|l|] == l;
  }

  // ---- A completion cancels at most one reservation ----

  lemma CancelRemovesOne(l: Ledger, amount: int)
    ensures Cancelled(l, amount).None? ==> Cancel(l, amount) == l
    ensures Cancelled(l, amount).Some? ==>
              multiset(l) == multiset(Cancel(l, amount)) + multiset{Cancelled(l, amount).value}
  {
    var i := FirstMatch(l, amount);
    if i < |l| {
      assert l == l[..i] + [l[i]] + l[i + 1..];
    }
  }

  // ---- Every webhook changes the reserved capacity by its own amount ----

  lemma {:induction false} ReservedConcat(a: Ledger, b: Ledger, now: int)
    ensures Reserved(a + b, now) == Reserved(a, now) + Reserved(b, now)
  {
    if b == [] {
      assert a + b == a;
    } else {
      assert (a + b)[..|a + b| - 1] == a + b[..|b| - 1];
      ReservedConcat(a, b[..|b| - 1], now);
    }
  }

  lemma ReservedSurvivesPruning(l: Ledger, now: int, later: int)
    requires now <= later
    ensures Reserved(Active(l, now), later) == Reserved(l, later)
  {
    ActiveTwice(l, now, later);
    ReservedIsActive(l, later);
    ReservedIsActive(Active(l, now), later);
  }

  lemma CancelReleases(l: Ledger, amount: int, t: int)
    ensures var c := Cancelled(l, amount);
            Reserved(Cancel(l, amount), t) == Reserved(l, t) + (if c.Some? && c.value.expires > t then amount else 0)
  {
    var i := FirstMatch(l, amount);
    if i < |l| {
      assert l == l[..i] + ([l[i]] + l[i + 1..]);
      ReservedConcat(l[..i], [l[i]] + l[i + 1..], t);
      ReservedConcat([l[i]], l[i + 1..], t);
      ReservedConcat(l[..i], l[i + 1..], t);
      assert [l[i]][..0] == [];
    }
  }

  /** From an arrival on, the reserved capacity is what it would have been plus the amount
      of the webhook, or one if it names none, until the stored time of its expiry. */
  lemma ArrivalAddsItsAmount(l: Ledger, h: Hook, t: int)
    requires h.amount >= 0 && h.now <= t
    ensures Reserved(Scale(l, h), t) ==
              Reserved(l, t)
              + if Stored(h.later + h.duration) <= t then 0 else if h.amount == 0 then 1 else h.amount
  {
    ReservedSurvivesPruning(l, h.now, t);
    ReservedConcat(Active(l, h.now), [NewReservation(h)], t);
    assert [NewReservation(h)][..0] == [];
  }

  /** The first reservation of exactly this size that is active at `now`. */
  ghost predicate FirstOfSize(l: Ledger, size: int, now: int, i: nat) {
    && i < |l| && l[i].expires > now && l[i].replicas == size
    && forall j :: 0 <= j < i ==> !(l[j].expires > now && l[j].replicas == size)
  }

  /** From a completion on, the capacity of the first active reservation of its size is
      missing for as long as that would have lasted; without one nothing changes. */
  lemma CompletionReleasesItsAmount(l: Ledger, h: Hook, t: int, i: nat)
    requires h.amount < 0 && h.now <= t
    ensures FirstOfSize(l, -h.amount, h.now, i) ==>
              Reserved(Scale(l, h), t) == Reserved(l, t) + if l[i].expires > t then h.amount else 0
    ensures (forall j :: 0 <= j < |l| ==> !(l[j].expires > h.now && l[j].replicas == -h.amount)) ==>
              Reserved(Scale(l, h), t) == Reserved(l, t)
  {
    ReservedSurvivesPruning(l, h.now, t);
    CancelReleases(Active(l, h.now), h.amount, t);
    UnprunedCancel(l, h.amount, h.now);
    var n := FirstActiveMatch(l, h.amount, h.now);
    if FirstOfSize(l, -h.amount, h.now, i) {
      assert n == i;
    }
  }

  // ---- Pruning is unobservable ----

  lemma {:induction false} ActiveConcat(a: Ledger, b: Ledger, now: int)
    ensures Active(a + b, now) == Active(a, now) + Active(b, now)
  {
    if b == [] {
      assert a + b == a;
    } else {
      assert (a + b)[..|a + b| - 1] == a + b[..|b| - 1];
      ActiveConcat(a, b[..|b| - 1], now);
    }
  }

  lemma {:induction false} ActiveTwice(l: Ledger, now: int, later: int)
    requires now <= later
    ensures Active(Active(l, now), later) == Active(l, later)
  {
    if l != [] {
      var init, last := l[..|l| - 1], l[|l| - 1];
      ActiveTwice(init, now, later);
      var tail := if last.expires > now then [last] else [];
      ActiveConcat(Active(init, now), tail, later);
      assert Active(tail, later) == if last.expires > later then [last] else [];
    }
  }

  lemma {:induction false} AllActive(l: Ledger, now: int)
    requires forall i :: 0 <= i < |l| ==> l[i].expires > now
    ensures Active(l, now) == l
  {
    if l != [] {
      AllActive(l[..|l| - 1], now);
    }
  }

  lemma {:induction false} ReservedIsActive(l: Ledger, now: int)
    ensures Reserved(l, now) == Reserved(Active(l, now), now)
  {
    if l != [] {
      var init, last := l[..|l| - 1], l[|l| - 1];
      ReservedIsActive(init, now);
      if last.expires > now {
        assert (Active(init, now) + [last])[..|Active(init, now)|] == Active(init, now);
      } else {
        assert Active(init, now) + [] == Active(init, now);
      }
    }
  }

  /** Position of the first unexpired reservation that `amount` cancels. */
  function FirstActiveMatch(l: Ledger, amount: int, now: int): (i: nat)
    ensures i <= |l| && (i < |l| ==> l[i].expires > now && l[i].replicas + amount == 0)
    ensures forall j :: 0 <= j < i ==> !(l[j].expires > now && l[j].replicas + amount == 0)
  {
    if l == [] then 0
    else if l[0].expires > now && l[0].replicas + amount == 0 then 0
    else 1 + FirstActiveMatch(l[1..], amount, now)
  }

  /** A ledger that never forgets: expired reservations stay in the list. */
  function ScaleUnpruned(l: Ledger, h: Hook): Ledger {
    var i := FirstActiveMatch(l, Amount(h), h.now);
    if Amount(h) > 0 then l + [NewReservation(h)]
    else if i < |l| then l[..i] + l[i + 1..]
    else l
  }

  lemma {:induction false} ActiveMember(l: Ledger, now: int, r: Reservation)
    requires r in Active(l, now)
    ensures r in l && r.expires > now
  {
    if l[|l| - 1] != r || l[|l| - 1].expires <= now {
      ActiveMember(l[..|l| - 1], now, r);
    }
  }

  lemma ActiveAround(l: Ledger, i: nat, now: int)
    requires i < |l| && l[i].expires > now
    ensures Active(l, now) == Active(l[..i], now) + [l[i]] + Active(l[i + 1..], now)
    ensures Active(l[..i] + l[i + 1..], now) == Active(l[..i], now) + Active(l[i + 1..], now)
  {
    var a, b := l[..i], l[i + 1..];
    assert l == a + [l[i]] + b;
    ActiveConcat(a + [l[i]], b, now);
    ActiveConcat(a, [l[i]], now);
    ActiveConcat(a, b, now);
    assert Active([l[i]], now) == [l[i]];
  }

  lemma FirstMatchAt(l: Ledger, amount: int, n: nat)
    requires n <= |l| && (n < |l| ==> l[n].replicas + amount == 0)
    requires forall j :: 0 <= j < n ==> l[j].replicas + amount != 0
    ensures FirstMatch(l, amount) == n
  {
  }

  lemma NoActiveMatch(l: Ledger, amount: int, now: int, k: nat)
    requires forall j :: 0 <= j < |l| ==> !(l[j].expires > now && l[j].replicas + amount == 0)
    requires k < |Active(l, now)|
    ensures Active(l, now)[k].replicas + amount != 0
  {
    ActiveMember(l, now, Active(l, now)[k]);
  }

  /** The first match among the active entries is the first active match. */
  lemma MatchAmongActive(l: Ledger, amount: int, now: int)
    ensures var i := FirstActiveMatch(l, amount, now);
            FirstMatch(Active(l, now), amount) == |Active(l[..i], now)|
  {
    var i := FirstActiveMatch(l, amount, now);
    var n := |Active(l[..i], now)|;
    if i < |l| {
      ActiveAround(l, i, now);
    } else {
      assert l[..i] == l;
    }
    forall j | 0 <= j < n ensures Active(l, now)[j].replicas + amount != 0 {
      NoActiveMatch(l[..i], amount, now, j);
      assert Active(l, now)[j] == Active(l[..i], now)[j];
    }
    FirstMatchAt(Active(l, now), amount, n);
  }

  /** Cancelling in the unpruned ledger cancels the same entry of the active part. */
  lemma UnprunedCancel(l: Ledger, amount: int, now: int)
    ensures var i := FirstActiveMatch(l, amount, now);
            && Cancelled(Active(l, now), amount) == (if i < |l| then Some(l[i]) else None)
            && Active(if i < |l| then l[..i] + l[i + 1..] else l, now) == Cancel(Active(l, now), amount)
  {
    var i := FirstActiveMatch(l, amount, now);
    MatchAmongActive(l, amount, now);
    if i < |l| {
      ActiveAround(l, i, now);
      var a, b := Active(l[..i], now), Active(l[i + 1..], now);
      assert (a + [l[i]] + b)[..|a|] == a && (a + [l[i]] + b)[|a| + 1..] == b;
    } else {
      assert l[..i] == l;
    }
  }

  /** The two ledgers agree on everything not expired at `now`. */
  predicate Agree(stored: Ledger, full: Ledger, now: int) { Active(stored, now) == Active(full, now) }

  lemma AgreeLater(stored: Ledger, full: Ledger, now: int, later: int)
    requires Agree(stored, full, now) && now <= later
    ensures Agree(stored, full, later)
  {
    ActiveTwice(stored, now, later);
    ActiveTwice(full, now, later);
  }

  lemma HookKeepsAgreement(stored: Ledger, full: Ledger, h: Hook)
    requires Agree(stored, full, h.now)
    ensures Agree(Scale(stored, h), ScaleUnpruned(full, h), h.now)
  {
    var valid := Active(stored, h.now);
    if Amount(h) > 0 {
      ActiveConcat(valid, [NewReservation(h)], h.now);
      ActiveConcat(full, [NewReservation(h)], h.now);
      ActiveTwice(stored, h.now, h.now);
    } else {
      UnprunedCancel(full, Amount(h), h.now);
      var i := FirstMatch(valid, Amount(h));
      AllActive(Cancel(valid, Amount(h)), h.now);
    }
  }

  function Pruned(l: Ledger, hooks: seq<Hook>): Ledger {
    if hooks == [] then l else Scale(Pruned(l, hooks[..|hooks| - 1]), hooks[|hooks| - 1])
  }

  function Unpruned(l: Ledger, hooks: seq<Hook>): Ledger {
    if hooks == [] then l else ScaleUnpruned(Unpruned(l, hooks[..|hooks| - 1]), hooks[|hooks| - 1])
  }

  predicate Monotone(hooks: seq<Hook>) {
    && (forall i :: 0 <= i < |hooks| ==> hooks[i].now <= hooks[i].later)
    && (forall i, j :: 0 <= i < j < |hooks| ==> hooks[i].later <= hooks[j].now)
  }

  lemma {:induction false} RunsAgree(l: Ledger, hooks: seq<Hook>, now: int)
    requires Monotone(hooks) && forall i :: 0 <= i < |hooks| ==> hooks[i].later <= now
    ensures Agree(Pruned(l, hooks), Unpruned(l, hooks), now)
  {
    if hooks != [] {
      var before, h := hooks[..|hooks| - 1], hooks[|hooks| - 1];
      RunsAgree(l, before, h.now);
      HookKeepsAgreement(Pruned(l, before), Unpruned(l, before), h);
      AgreeLater(Pruned(l, hooks), Unpruned(l, hooks), h.now, now);
    }
  }

  /** Pruning at webhook time is unobservable: after any webhooks the stored list
      reserves as much at any later time, and the next completion cancels the same
      entry, as in a ledger that never forgets. */
  lemma PruningIsUnobservable(l: Ledger, hooks: seq<Hook>, now: int, amount: int)
    requires Monotone(hooks) && forall i :: 0 <= i < |hooks| ==> hooks[i].later <= now
    ensures Reserved(Pruned(l, hooks), now) == Reserved(Unpruned(l, hooks), now)
    ensures var full := Unpruned(l, hooks);
            var i := FirstActiveMatch(full, amount, now);
            Cancelled(Active(Pruned(l, hooks), now), amount) == if i < |full| then Some(full[i]) else None
  {
    RunsAgree(l, hooks, now);
    ReservedIsActive(Pruned(l, hooks), now);
    ReservedIsActive(Unpruned(l, hooks), now);
    UnprunedCancel(Unpruned(l, hooks), amount, now);
  }
}
