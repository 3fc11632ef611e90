/** The effective time that reconciles hand to the scale target: exactly which webhook
    makes it go backwards, and that it never does in runs without such a webhook. */
module EffectiveTime {
  import opened Autoscaler
  import opened Basics
  import opened Reservations

  // ---- The ledger stays in order ----

  /** Oldest first, nothing from after `bound`. Amounts and durations are free. */
  predicate Ascending(l: Ledger, bound: int) {
    && (forall i :: 0 <= i < |l| ==> l[i].effective <= bound)
    && (forall i, j :: 0 <= i < j < |l| ==> l[i].effective <= l[j].effective)
  }

  lemma {:induction false} ActiveAscends(l: Ledger, bound: int, now: int)
    requires Ascending(l, bound)
    ensures Ascending(Active(l, now), bound)
  {
    if l != [] {
      ActiveAscends(l[..|l| - 1], l[|l| - 1].effective, now);
    }
  }

  lemma {:induction false} CancelAscends(l: Ledger, bound: int, amount: int)
    requires Ascending(l, bound)
    ensures Ascending(Cancel(l, amount), bound)
  {
    var i, c := FirstMatch(l, amount), Cancel(l, amount);
    if i < |l| {
      forall j | 0 <= j < |c| ensures c[j] == l[if j < i then j else j + 1] {}
      forall j, k | 0 <= j < k < |c| ensures c[j].effective <= c[k].effective {
        assert c[j] == l[if j < i then j else j + 1] && c[k] == l[if k < i then k else k + 1];
      }
    }
  }

  /** Every webhook, of any amount and duration, keeps the ledger ascending. */
  lemma {:induction false} WebhookAscends(l: Ledger, bound: int, h: Hook)
    requires Ascending(l, bound) && bound <= Stored(h.later)
    ensures Ascending(Scale(l, h), Stored(h.later))
  {
    ActiveAscends(l, bound, h.now);
    CancelAscends(Active(l, h.now), bound, Amount(h));
  }

  function LastEffective(l: Ledger): int
    requires l != []
  {
    l[|l| - 1].effective
  }

  /** The maximum the reconcile looks for is that of the last reservation. */
  lemma {:induction false} LatestIsLast(l: Ledger, bound: int)
    requires Ascending(l, bound)
    ensures LatestEffective(l) == if l == [] then None else Some(LastEffective(l))
  {
    if l != [] {
      LatestIsLast(l[..|l| - 1], bound);
    }
  }

  // ---- Which webhook lowers the latest effective time ----

  predicate Lowers(before: Option<int>, after: Option<int>) {
    before.Some? && after.Some? && after.value < before.value
  }

  /** A completion after which some reservation is left, but none of the newest time:
      each of those has expired or is the one cancelled. */
  ghost predicate LosesNewest(l: Ledger, h: Hook) {
    && l != [] && Amount(h) < 0
    && var active := Active(l, h.now);
       var i := FirstMatch(active, Amount(h));
       && |active| > (if i < |active| then 1 else 0)
       && (forall k :: 0 <= k < |active| && active[k].effective == LastEffective(l) ==> k == i)
  }

  /** Position of the last reservation that a completion leaves, or -1. */
  function LastSurvivor(active: Ledger, amount: int): int {
    if FirstMatch(active, amount) == |active| - 1 then |active| - 2 else |active| - 1
  }

  lemma {:induction false} CancelEndsAt(active: Ledger, amount: int)
    ensures Cancel(active, amount) == [] <==> LastSurvivor(active, amount) < 0
    ensures var m := LastSurvivor(active, amount);
            m >= 0 ==> m != FirstMatch(active, amount) && LastEffective(Cancel(active, amount)) == active[m].effective
  {
  }

  lemma {:induction false} ActiveNotAfterLast(l: Ledger, bound: int, now: int)
    requires Ascending(l, bound) && l != []
    ensures Ascending(Active(l, now), LastEffective(l))
  {
    assert Ascending(l, LastEffective(l));
    ActiveAscends(l, LastEffective(l), now);
  }

  /** Of those left, the last one is the newest, and not newer than the old newest. */
  lemma {:induction false} SurvivorIsNewest(l: Ledger, bound: int, now: int, amount: int, k: nat)
    requires Ascending(l, bound) && l != [] && LastSurvivor(Active(l, now), amount) >= 0
    requires k < |Active(l, now)| && k != FirstMatch(Active(l, now), amount)
    ensures var active := Active(l, now);
            active[k].effective <= active[LastSurvivor(active, amount)].effective <= LastEffective(l)
  {
    ActiveNotAfterLast(l, bound, now);
    assert k <= LastSurvivor(Active(l, now), amount);
  }

  lemma {:induction false} CompletionLowersIff(l: Ledger, bound: int, h: Hook)
    requires Ascending(l, bound) && l != [] && Amount(h) < 0
    ensures LosesNewest(l, h) <==>
              Scale(l, h) != [] && LastEffective(Scale(l, h)) < LastEffective(l)
  {
    var active := Active(l, h.now);
    var i, m := FirstMatch(active, Amount(h)), LastSurvivor(active, Amount(h));
    CancelEndsAt(active, Amount(h));
    if m >= 0 {
      SurvivorIsNewest(l, bound, h.now, Amount(h), m);
      forall k | 0 <= k < |active| && k != i ensures active[k].effective <= active[m].effective {
        SurvivorIsNewest(l, bound, h.now, Amount(h), k);
      }
    }
  }

  /** The guard, for ledgers of any amounts and durations: a webhook lowers the latest
      effective time exactly when it is a completion that loses the newest one. */
  lemma {:induction false} LowersIff(l: Ledger, bound: int, h: Hook)
    requires Ascending(l, bound) && bound <= Stored(h.later)
    ensures Lowers(LatestEffective(l), LatestEffective(Scale(l, h))) <==> LosesNewest(l, h)
  {
    LatestIsLast(l, bound);
    WebhookAscends(l, bound, h);
    LatestIsLast(Scale(l, h), Stored(h.later));
    if l != [] && Amount(h) < 0 {
      CompletionLowersIff(l, bound, h);
    } else if l != [] {
      assert LastEffective(Scale(l, h)) == Stored(h.later);
    }
  }

  predicate Strict(l: Ledger) {
    forall i, j :: 0 <= i < j < |l| ==> l[i].effective < l[j].effective
  }

  lemma {:induction false} StrictLast(l: Ledger, now: int, k: nat)
    requires Strict(l) && l != [] && k < |Active(l, now)|
    ensures var active := Active(l, now);
            active[k].effective == LastEffective(l) <==> l[|l| - 1].expires > now && k == |active| - 1
  {
    var init, last := l[..|l| - 1], l[|l| - 1];
    var before := Active(init, now);
    assert Active(l, now) == before + (if last.expires > now then [last] else []);
    if k < |before| {
      ActiveMember(init, now, before[k]);
      var i :| 0 <= i < |init| && init[i] == before[k];
      assert l[i].effective < last.effective;
    }
  }

  /** With distinct times the guard reads: the newest reservation is live and is the
      one cancelled while another is left, or it has expired and any is left. */
  lemma {:induction false} LosesNewestWhenStrict(l: Ledger, h: Hook)
    requires Strict(l) && l != [] && Amount(h) < 0
    ensures var active := Active(l, h.now);
            var i := FirstMatch(active, Amount(h));
            LosesNewest(l, h) <==>
              if l[|l| - 1].expires > h.now then |active| > 1 && i == |active| - 1
              else |active| > (if i < |active| then 1 else 0)
  {
    var active := Active(l, h.now);
    var i := FirstMatch(active, Amount(h));
    forall k | 0 <= k < |active|
      ensures active[k].effective == LastEffective(l) <==> l[|l| - 1].expires > h.now && k == |active| - 1
    {
      StrictLast(l, h.now, k);
    }
    if l[|l| - 1].expires > h.now {
      LastIsActive(l, h.now);
    }
  }

  lemma {:induction false} LastIsActive(l: Ledger, now: int)
    requires l != [] && l[|l| - 1].expires > now
    ensures Active(l, now) != [] && Active(l, now)[|Active(l, now)| - 1] == l[|l| - 1]
  {
  }

  // ---- The scale target ----

  /** A webhook and then a reconcile that writes the effective time, on a target that
      is up to date: its effective time goes back exactly when the webhook loses the
      newest reservation. */
  lemma {:induction false} TargetGoesBackIff(s: Scaler, bound: int, h: Hook, c: Input)
    requires Ascending(s.ledger, bound) && bound <= Stored(h.later) && s.effective == LatestEffective(s.ledger)
    requires c.ephemeral && ComputeReplicas(Next(s, Webhook(h)), c).Some?
    ensures Lowers(s.effective, Next(Next(s, Webhook(h)), Reconcile(c)).effective) <==> LosesNewest(s.ledger, h)
  {
    LowersIff(s.ledger, bound, h);
  }

  /** The written time is not later than the newest reservation or the clock. */
  predicate InStep(s: Scaler, clock: int) {
    && Ascending(s.ledger, Stored(clock))
    && !Lowers(s.effective, Some(Stored(clock)))
    && (s.ledger != [] ==> !Lowers(s.effective, Some(LastEffective(s.ledger))))
  }

  ghost predicate Harmless(s: Scaler, e: Event) { e.Webhook? ==> !LosesNewest(s.ledger, e.hook) }

  lemma {:induction false} ArrivalInStep(s: Scaler, h: Hook, clock: int)
    requires InStep(s, clock) && clock <= h.later && Amount(h) > 0
    ensures InStep(Next(s, Webhook(h)), h.later)
  {
    StoredGrows(clock, h.later);
    WebhookAscends(s.ledger, Stored(clock), h);
    assert LastEffective(Scale(s.ledger, h)) == Stored(h.later);
  }

  lemma {:induction false} CompletionInStep(s: Scaler, h: Hook, clock: int)
    requires InStep(s, clock) && clock <= h.later && Amount(h) <= 0 && !LosesNewest(s.ledger, h)
    ensures InStep(Next(s, Webhook(h)), h.later)
  {
    StoredGrows(clock, h.later);
    WebhookAscends(s.ledger, Stored(clock), h);
    if s.ledger == [] {
      assert Scale(s.ledger, h) == [];
    } else {
      CompletionLowersIff(s.ledger, Stored(clock), h);
    }
  }

  lemma StepInStep(s: Scaler, e: Event, clock: int)
    requires InStep(s, clock) && clock <= Now(e) <= Later(e) && Harmless(s, e)
    ensures InStep(Next(s, e), Later(e))
    ensures !Lowers(s.effective, Next(s, e).effective) && (s.effective.Some? ==> Next(s, e).effective.Some?)
  {
    match e
    case Webhook(h) =>
      if Amount(h) > 0 {
        ArrivalInStep(s, h, clock);
      } else {
        CompletionInStep(s, h, clock);
      }
    case Reconcile(c) =>
      StoredGrows(clock, Later(e));
      LatestIsLast(s.ledger, Stored(clock));
  }

  /** A run in which no webhook loses the newest reservation. */
  ghost predicate HarmlessRun(states: seq<Scaler>, events: seq<Event>) {
    Run(states, events) && forall k :: 0 <= k < |events| ==> Harmless(states[k], events[k])
  }

  function ClockAt(events: seq<Event>, start: int, n: nat): int
    requires n <= |events|
  {
    if n == 0 then start else Later(events[n - 1])
  }

  lemma {:induction false} InStepOverRuns(states: seq<Scaler>, events: seq<Event>, start: int, n: nat)
    requires HarmlessRun(states, events) && n <= |events| && InStep(states[0], start)
    requires events != [] ==> start <= Now(events[0])
    ensures InStep(states[n], ClockAt(events, start, n))
  {
    if n > 0 {
      InStepOverRuns(states, events, start, n - 1);
      assert StepAt(states, events, n - 1) && Harmless(states[n - 1], events[n - 1]);
      StepInStep(states[n - 1], events[n - 1], ClockAt(events, start, n - 1));
    }
  }

  lemma StepNeverGoesBack(states: seq<Scaler>, events: seq<Event>, start: int, n: nat)
    requires HarmlessRun(states, events) && n < |events| && InStep(states[0], start)
    requires start <= Now(events[0])
    ensures !Lowers(states[n].effective, states[n + 1].effective)
    ensures states[n].effective.Some? ==> states[n + 1].effective.Some?
  {
    InStepOverRuns(states, events, start, n);
    assert StepAt(states, events, n) && Harmless(states[n], events[n]);
    StepInStep(states[n], events[n], ClockAt(events, start, n));
  }

  /** Over any run of webhooks and reconciles, of any amounts and durations, in which
      no completion loses the newest reservation, the effective time of the scale
      target never goes backwards and is never withdrawn. */
  lemma {:induction false} EffectiveTimeNeverGoesBack(
    states: seq<Scaler>, events: seq<Event>, start: int, i: nat, j: nat)
    requires HarmlessRun(states, events) && i <= j <= |events| && InStep(states[0], start)
    requires events != [] ==> start <= Now(events[0])
    ensures !Lowers(states[i].effective, states[j].effective)
    ensures states[i].effective.Some? ==> states[j].effective.Some?
    decreases j
  {
    if i < j {
      EffectiveTimeNeverGoesBack(states, events, start, i, j - 1);
      StepNeverGoesBack(states, events, start, j - 1);
    }
  }

  // ---- Reservations of one size and one duration ----

  predicate ExpireInOrder(l: Ledger) {
    forall i, j :: 0 <= i < j < |l| ==> l[i].expires <= l[j].expires
  }

  /** Reservations of one size that expire in the order in which they were made. */
  predicate Uniform(l: Ledger, size: int, bound: int, expiry: int) {
    && Ascending(l, bound) && ExpireInOrder(l)
    && (forall i :: 0 <= i < |l| ==> l[i].replicas == size && l[i].expires <= expiry)
  }

  predicate UniformHook(h: Hook, size: int, duration: int) {
    (Amount(h) == size || Amount(h) == -size) && h.duration == duration
  }

  lemma {:induction false} ActiveIsSuffix(l: Ledger, now: int) returns (n: nat)
    requires ExpireInOrder(l)
    ensures n <= |l| && Active(l, now) == l[n..]
  {
    if l == [] {
      return 0;
    }
    if l[0].expires > now {
      forall k | 0 <= k < |l| ensures l[k].expires > now {
        assert k > 0 ==> l[0].expires <= l[k].expires;
      }
      AllActive(l, now);
      return 0;
    }
    var rest := l[1..];
    n := ActiveIsSuffix(rest, now);
    assert l == [l[0]] + rest && Active([l[0]], now) == [];
    ActiveConcat([l[0]], rest, now);
    assert rest[n..] == l[n + 1..];
    n := n + 1;
  }

  lemma SuffixIsUniform(l: Ledger, size: int, bound: int, expiry: int, n: nat)
    requires Uniform(l, size, bound, expiry) && n <= |l|
    ensures Uniform(l[n..], size, bound, expiry)
  {
  }

  lemma {:induction false} FirstIsCancelled(active: Ledger, size: int)
    requires active != [] && active[0].replicas == size
    ensures FirstMatch(active, -size) == 0 && Cancel(active, -size) == active[1..]
  {
  }

  /** A completion removes the active reservation that expires first, and only that. */
  lemma {:induction false} CompletionRemovesSoonest(l: Ledger, size: int, bound: int, expiry: int, h: Hook)
    requires Uniform(l, size, bound, expiry) && size > 0 && Amount(h) == -size
    ensures var active := Active(l, h.now);
            && (active == [] ==> Scale(l, h) == [])
            && (active != [] ==>
                  && Scale(l, h) == active[1..] && FirstMatch(active, Amount(h)) == 0
                  && forall k :: 0 <= k < |active| ==> active[0].expires <= active[k].expires)
  {
    var n := ActiveIsSuffix(l, h.now);
    if n < |l| {
      FirstIsCancelled(l[n..], size);
      forall k | 0 <= k < |l| - n ensures l[n].expires <= l[n..][k].expires {
        assert k > 0 ==> l[n].expires <= l[n + k].expires;
      }
    }
  }

  lemma AppendIsUniform(l: Ledger, size: int, bound: int, expiry: int, r: Reservation)
    requires Uniform(l, size, bound, expiry) && bound <= r.effective && expiry <= r.expires && r.replicas == size
    ensures Uniform(l + [r], size, r.effective, r.expires)
  {
  }

  lemma {:induction false} ArrivalIsUniform(l: Ledger, size: int, bound: int, expiry: int, h: Hook)
    requires Uniform(l, size, bound, expiry) && Amount(h) == size > 0
    requires bound <= NewReservation(h).effective && expiry <= NewReservation(h).expires
    ensures Uniform(Scale(l, h), size, NewReservation(h).effective, NewReservation(h).expires)
  {
    var n := ActiveIsSuffix(l, h.now);
    SuffixIsUniform(l, size, bound, expiry, n);
    AppendIsUniform(l[n..], size, bound, expiry, NewReservation(h));
  }

  lemma {:induction false} CompletionIsUniform(l: Ledger, size: int, bound: int, expiry: int, h: Hook)
    requires Uniform(l, size, bound, expiry) && size > 0 && Amount(h) == -size
    ensures Uniform(Scale(l, h), size, bound, expiry)
  {
    CompletionRemovesSoonest(l, size, bound, expiry, h);
    var n := ActiveIsSuffix(l, h.now);
    if n < |l| {
      assert Scale(l, h) == l[n + 1..];
      SuffixIsUniform(l, size, bound, expiry, n + 1);
    }
  }

  lemma {:induction false} OlderIsCancelled(l: Ledger, h: Hook, n: nat)
    requires n <= |l| && l != [] && Active(l, h.now) == l[n..] && (n < |l| ==> FirstMatch(l[n..], Amount(h)) == 0)
    ensures !LosesNewest(l, h)
  {
    if |l| - n > 1 {
      assert l[n..][|l| - n - 1] == l[|l| - 1];
    }
  }

  /** Webhooks of one size and duration never lose the newest reservation. */
  lemma {:induction false} UniformIsHarmless(l: Ledger, size: int, bound: int, expiry: int, h: Hook)
    requires Uniform(l, size, bound, expiry) && size > 0 && (Amount(h) == size || Amount(h) == -size)
    ensures !LosesNewest(l, h)
  {
    if Amount(h) < 0 && l != [] {
      var n := ActiveIsSuffix(l, h.now);
      if n < |l| {
        FirstIsCancelled(l[n..], size);
      }
      OlderIsCancelled(l, h, n);
    }
  }

  predicate UniformEvent(e: Event, size: int, duration: int) { e.Webhook? ==> UniformHook(e.hook, size, duration) }

  /** Uniform at this clock: nothing was made or expires later than made now. */
  predicate UniformAt(l: Ledger, size: int, duration: int, clock: int) {
    Uniform(l, size, Stored(clock), Stored(clock + duration))
  }

  lemma UniformWeakens(l: Ledger, size: int, bound: int, expiry: int, bound': int, expiry': int)
    requires Uniform(l, size, bound, expiry) && bound <= bound' && expiry <= expiry'
    ensures Uniform(l, size, bound', expiry')
  {
  }

  lemma {:induction false} UniformWebhook(l: Ledger, size: int, bound: int, expiry: int, h: Hook)
    requires Uniform(l, size, bound, expiry) && size > 0 && (Amount(h) == size || Amount(h) == -size)
    requires bound <= NewReservation(h).effective && expiry <= NewReservation(h).expires
    ensures Uniform(Scale(l, h), size, NewReservation(h).effective, NewReservation(h).expires)
  {
    if Amount(h) > 0 {
      ArrivalIsUniform(l, size, bound, expiry, h);
    } else {
      CompletionIsUniform(l, size, bound, expiry, h);
      UniformWeakens(Scale(l, h), size, bound, expiry, NewReservation(h).effective, NewReservation(h).expires);
    }
  }

  lemma UniformStep(s: Scaler, e: Event, size: int, duration: int, clock: int)
    requires UniformAt(s.ledger, size, duration, clock) && size > 0 && UniformEvent(e, size, duration)
    requires clock <= Later(e)
    ensures UniformAt(Next(s, e).ledger, size, duration, Later(e)) && Harmless(s, e)
  {
    var bound, expiry := Stored(clock), Stored(clock + duration);
    StoredGrows(clock, Later(e));
    StoredGrows(clock + duration, Later(e) + duration);
    if e.Webhook? {
      UniformIsHarmless(s.ledger, size, bound, expiry, e.hook);
      UniformWebhook(s.ledger, size, bound, expiry, e.hook);
    } else {
      UniformWeakens(s.ledger, size, bound, expiry, Stored(Later(e)), Stored(Later(e) + duration));
    }
  }

  ghost predicate UniformRun(states: seq<Scaler>, events: seq<Event>, size: int, duration: int) {
    Run(states, events) && forall k :: 0 <= k < |events| ==> UniformEvent(events[k], size, duration)
  }

  lemma {:induction false} UniformOverRuns(
    states: seq<Scaler>, events: seq<Event>, size: int, duration: int, start: int, n: nat)
    requires UniformRun(states, events, size, duration) && n <= |events| && size > 0
    requires UniformAt(states[0].ledger, size, duration, start) && (events != [] ==> start <= Now(events[0]))
    ensures UniformAt(states[n].ledger, size, duration, ClockAt(events, start, n))
    ensures n < |events| ==> Harmless(states[n], events[n])
  {
    if n > 0 {
      UniformOverRuns(states, events, size, duration, start, n - 1);
      assert StepAt(states, events, n - 1) && UniformEvent(events[n - 1], size, duration);
      UniformStep(states[n - 1], events[n - 1], size, duration, ClockAt(events, start, n - 1));
    }
    if n < |events| {
      assert StepAt(states, events, n) && UniformEvent(events[n], size, duration);
      UniformStep(states[n], events[n], size, duration, ClockAt(events, start, n));
    }
  }

  /** So with webhooks of one size and one duration the ledger stays in order of time
      and of expiration, and the effective time never goes backwards. */
  lemma UniformNeverGoesBack(
    states: seq<Scaler>, events: seq<Event>, size: int, duration: int, start: int, i: nat, j: nat)
    requires UniformRun(states, events, size, duration) && i <= j <= |events| && size > 0
    requires UniformAt(states[0].ledger, size, duration, start) && InStep(states[0], start)
    requires events != [] ==> start <= Now(events[0])
    ensures !Lowers(states[i].effective, states[j].effective)
    ensures UniformAt(states[j].ledger, size, duration, ClockAt(events, start, j))
  {
    forall k | 0 <= k < |events| ensures Harmless(states[k], events[k]) {
      UniformOverRuns(states, events, size, duration, start, k);
    }
    UniformOverRuns(states, events, size, duration, start, j);
    EffectiveTimeNeverGoesBack(states, events, start, i, j);
  }

  // ---- A completion that loses the newest reservation ----

  lemma {:induction false} ReleaseOfTwo()
    ensures var l := [Reservation(1 * SECOND, 100 * SECOND, 1), Reservation(2 * SECOND, 100 * SECOND, 2)];
            LosesNewest(l, Hook(-2, 99 * SECOND, 4 * SECOND, 4 * SECOND)) && LatestEffective(l) == Some(2 * SECOND)
  {
    var a, b := Reservation(1 * SECOND, 100 * SECOND, 1), Reservation(2 * SECOND, 100 * SECOND, 2);
    var l := [a, b];
    AllActive(l, 4 * SECOND);
    FirstMatchAt(l, -2, 1);
    LatestIsLast(l, 2 * SECOND);
  }

  /** A release of two replicas cancels the newest reservation and leaves an older one. */
  lemma {:induction false} ReleaseOfTwoGoesBack(c: Input)
    requires c.minimum.Some? && c.minReplicas.Some? && c.maxReplicas.Some?
    requires !c.suggestion.MetricsError? && c.ephemeral
    ensures var l := [Reservation(1 * SECOND, 100 * SECOND, 1), Reservation(2 * SECOND, 100 * SECOND, 2)];
            var s := Scaler(l, None, None, None, Some(2 * SECOND));
            var h := Hook(-2, 99 * SECOND, 4 * SECOND, 4 * SECOND);
            Lowers(s.effective, Next(Next(s, Webhook(h)), Reconcile(c)).effective)
  {
    var l := [Reservation(1 * SECOND, 100 * SECOND, 1), Reservation(2 * SECOND, 100 * SECOND, 2)];
    ReleaseOfTwo();
    assert Ascending(l, 2 * SECOND);
    TargetGoesBackIff(Scaler(l, None, None, None, Some(2 * SECOND)), 2 * SECOND,
                      Hook(-2, 99 * SECOND, 4 * SECOND, 4 * SECOND), c);
  }
}
