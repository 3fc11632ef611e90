/** The horizontal runner autoscaler: what each reconcile records and writes to the
    scale target, over runs of reconciles and webhooks. */
module Autoscaler {
  import opened Basics
  import opened Reservations
  import opened Schedule

  /** `target` and `effective` are the replicas and effective time of the scale target. */
  datatype Scaler = Scaler(
    ledger: Ledger, desired: Option<int>, lastScaleOut: Option<int>, target: Option<int>, effective: Option<int>)

  /** What the metrics suggest; without metrics the minimum counts. */
  datatype Suggestion = NoMetrics | Suggested(replicas: int) | MetricsError

  /** One reconcile: the two clock readings, the spec, and what is computed elsewhere.
      `minimum` is None when a scheduled override is invalid. */
  datatype Input = Input(
    now: int, later: int, minReplicas: Option<int>, maxReplicas: Option<int>, minimum: Option<int>,
    suggestion: Suggestion, delay: int, ephemeral: bool)

  function Clamp(n: int, minimum: int, maximum: int): int {
    if n < minimum then minimum else if n > maximum then maximum else n
  }

  /** The count before the scale-down delay is taken into account, if there is one. */
  function Wanted(s: Scaler, c: Input): Option<int> {
    if c.minimum.None? || c.minReplicas.None? || c.maxReplicas.None? || c.suggestion.MetricsError? then None
    else
      var suggested := if c.suggestion.NoMetrics? then c.minimum.value else c.suggestion.replicas;
      Some(Clamp(suggested + Reserved(s.ledger, c.now), c.minimum.value, c.maxReplicas.value))
  }

  /** The scale-down delay holds back any count that is not above the recorded one. */
  predicate Delayed(s: Scaler, c: Input, n: int) {
    && s.desired.Some? && s.desired.value >= n
    && s.lastScaleOut.Some? && s.lastScaleOut.value + c.delay > c.now
  }

  function ComputeReplicas(s: Scaler, c: Input): Option<int> {
    var n := Wanted(s, c);
    if n.None? then None else if Delayed(s, c, n.value) then s.desired else n
  }

  predicate ScalesOut(desired: Option<int>, n: int) {
    n > (if desired.None? then 1 else desired.value)
  }

  function LatestEffective(l: Ledger): Option<int> {
    if l == [] then None else Latest(LatestEffective(l[..|l| - 1]), l[|l| - 1].effective)
  }

  /** The whole reconcile; an error leaves everything as it was. */
  function Reconciled(s: Scaler, c: Input): Scaler {
    var n := ComputeReplicas(s, c);
    if n.None? then s
    else
      s.(target := if (if s.target.None? then 1 else s.target.value) != n.value then n else s.target,
         effective := if c.ephemeral && LatestEffective(s.ledger).Some? then LatestEffective(s.ledger) else s.effective,
         lastScaleOut := if s.desired != n && ScalesOut(s.desired, n.value)
                         then Some(Stored(c.later)) else s.lastScaleOut,
         desired := n)
  }

  // ---- The reconciler ----

  class Reconciler {
    var ledger: Ledger
    var desired: Option<int>
    var lastScaleOut: Option<int>
    var target: Option<int>
    var effective: Option<int>

    ghost function State(): Scaler
      reads this
    {
      Scaler(ledger, desired, lastScaleOut, target, effective)
    }

    constructor (s: Scaler)
      ensures State() == s
    {
      ledger, desired, lastScaleOut, target, effective := s.ledger, s.desired, s.lastScaleOut, s.target, s.effective;
    }

    /** A webhook appends or cancels a reservation. */
    method TryScale(h: Hook)
      modifies this`ledger
      ensures ledger == Scale(old(ledger), h)
    {
      var amount := 1;
      if h.amount != 0 {
        amount := h.amount;
      }
      var valid := GetValidCapacityReservations(ledger, h.now);
      if amount > 0 {
        ledger := valid + [Reservation(Stored(h.later), Stored(h.later + h.duration), amount)];
      } else {
        ledger := CancelReservation(valid, amount);
      }
    }

    method ComputeReplicasWithCache(c: Input) returns (n: Option<int>)
      ensures n == ComputeReplicas(State(), c)
    {
      if c.minimum.None? || c.minReplicas.None? || c.maxReplicas.None? || c.suggestion.MetricsError? {
        return None;
      }
      var minimum := c.minimum.value;
      var suggested := if c.suggestion.NoMetrics? then minimum else c.suggestion.replicas;
      var reserved := SumReserved(ledger, c.now);
      var replicas := suggested + reserved;
      if replicas < minimum {
        replicas := minimum;
      } else if replicas > c.maxReplicas.value {
        replicas := c.maxReplicas.value;
      }
      if desired.None? || desired.value < replicas || lastScaleOut.None? {
        return Some(replicas);
      }
      if lastScaleOut.value + c.delay > c.now {
        return desired;
      }
      return Some(replicas);
    }

    method UpdateTarget(n: int, ephemeral: bool)
      modifies this`target, this`effective
      ensures target == if (if old(target).None? then 1 else old(target).value) != n then Some(n) else old(target)
      ensures effective ==
                if ephemeral && LatestEffective(ledger).Some? then LatestEffective(ledger) else old(effective)
    {
      var latest: Option<int> := None;
      for i := 0 to |ledger|
        invariant latest == LatestEffective(ledger[..i])
      {
        assert ledger[..i + 1][..i] == ledger[..i];
        if latest.None? || latest.value < ledger[i].effective {
          latest := Some(ledger[i].effective);
        }
      }
      assert ledger[..|ledger|] == ledger;
      if (if target.None? then 1 else target.value) != n {
        target := Some(n);
        if ephemeral && latest.Some? {
          effective := latest;
        }
      } else if ephemeral && latest.Some? {
        effective := latest;
      }
    }

    /** One reconcile; `minimum` is the one in force, None for an invalid schedule. */
    method Reconcile(c: Input, overrides: seq<Override>, library: (Override, int) -> Calendar)
      returns (minimum: Option<int>)
      modifies this
      ensures State() == Reconciled(old(State()), c.(minimum := minimum))
      ensures exists r :: Prioritised(overrides, c.now, library, r) &&
                minimum == if r.BadSchedule? then None else Some(MinimumOf(c.minReplicas, overrides, r.active))
    {
      var r := MatchScheduledOverrides(overrides, c.now, library);
      if r.BadSchedule? {
        return None;
      }
      minimum := Some(MinimumOf(c.minReplicas, overrides, r.active));
      var n := ComputeReplicasWithCache(c.(minimum := minimum));
      if n.None? {
        return;
      }
      UpdateTarget(n.value, c.ephemeral);
      if desired != n {
        if (desired.None? && n.value > 1) || (desired.Some? && n.value > desired.value) {
          lastScaleOut := Some(Stored(c.later));
        }
        desired := n;
      }
    }
  }

  // ---- What is recorded ----

  /** The reconcile gets to a count: the schedule, the bounds and the metrics are there. */
  predicate Countable(c: Input) {
    c.minimum.Some? && c.minReplicas.Some? && c.maxReplicas.Some? && !c.suggestion.MetricsError?
  }

  function Recorded(s: Scaler, c: Input): Option<int> { Reconciled(s, c).desired }

  /** No scale-down delay is running. */
  predicate DelayOver(s: Scaler, c: Input) {
    s.desired.None? || s.lastScaleOut.None? || s.lastScaleOut.value + c.delay <= c.now
  }

  /** Count `n` is above the one on record before the reconcile. */
  predicate Above(s: Scaler, n: int) { s.desired.Some? && n > s.desired.value }

  /** Without reservations and delay the count is the suggestion, or the minimum without
      one, brought between the minimum and the maximum. */
  lemma {:induction false} SuggestionCounts(s: Scaler, c: Input)
    requires Countable(c) && s.ledger == [] && DelayOver(s, c) && c.minimum.value <= c.maxReplicas.value
    ensures Recorded(s, c).Some? && c.minimum.value <= Recorded(s, c).value <= c.maxReplicas.value
    ensures c.suggestion.NoMetrics? ==> Recorded(s, c) == c.minimum
    ensures c.suggestion.Suggested? ==>
              var n, x := c.suggestion.replicas, Recorded(s, c).value;
              (c.minimum.value <= n <= c.maxReplicas.value ==> x == n)
              && (n < c.minimum.value ==> x == c.minimum.value)
              && (n > c.maxReplicas.value ==> x == c.maxReplicas.value)
  {
  }

  lemma {:induction false} CountShifts(s: Scaler, l: Ledger, a: int, c: Input)
    requires Countable(c) && Reserved(l, c.now) == Reserved(s.ledger, c.now) + a
    requires DelayOver(s, c) || (Above(s, Recorded(s, c).value) && Above(s, Recorded(s, c).value + a))
    requires c.minimum.value < Recorded(s, c).value < c.maxReplicas.value
    requires c.minimum.value <= Recorded(s, c).value + a <= c.maxReplicas.value
    ensures Recorded(s.(ledger := l), c) == Some(Recorded(s, c).value + a)
  {
  }

  /** Between the bounds a webhook raises the recorded count by exactly its amount for as
      long as its reservation lasts, unless the delay may be holding the count. */
  lemma {:induction false} ArrivalRaisesCount(s: Scaler, h: Hook, c: Input)
    requires Countable(c) && h.amount > 0 && h.now <= c.now < Stored(h.later + h.duration)
    requires DelayOver(s, c) || Above(s, Recorded(s, c).value)
    requires c.minimum.value < Recorded(s, c).value && Recorded(s, c).value + h.amount <= c.maxReplicas.value
    ensures Recorded(s.(ledger := Scale(s.ledger, h)), c) == Some(Recorded(s, c).value + h.amount)
  {
    var l := Scale(s.ledger, h);
    assert Reserved(l, c.now) == Reserved(s.ledger, c.now) + h.amount by {
      ArrivalAddsItsAmount(s.ledger, h, c.now);
    }
    CountShifts(s, l, h.amount, c);
  }

  /** And a completion lowers it by its amount while the reservation it cancels would
      still have lasted. */
  lemma {:induction false} CompletionLowersCount(s: Scaler, h: Hook, c: Input, i: nat)
    requires Countable(c) && h.amount < 0 && h.now <= c.now
    requires DelayOver(s, c) || Above(s, Recorded(s, c).value + h.amount)
    requires FirstOfSize(s.ledger, -h.amount, h.now, i) && s.ledger[i].expires > c.now
    requires c.minimum.value <= Recorded(s, c).value + h.amount && Recorded(s, c).value < c.maxReplicas.value
    ensures Recorded(s.(ledger := Scale(s.ledger, h)), c) == Some(Recorded(s, c).value + h.amount)
  {
    var l := Scale(s.ledger, h);
    assert Reserved(l, c.now) == Reserved(s.ledger, c.now) + h.amount by {
      CompletionReleasesItsAmount(s.ledger, h, c.now, i);
    }
    CountShifts(s, l, h.amount, c);
  }

  /** A reconcile that fails changes nothing; one that records a count makes the scale
      target ask for it, and touches its effective time only for ephemeral runners. */
  lemma {:induction false} TargetFollows(s: Scaler, c: Input)
    ensures !Countable(c) ==> Reconciled(s, c) == s
    ensures Countable(c) ==>
              var t := Reconciled(s, c).target; Recorded(s, c) == Some(if t.None? then 1 else t.value)
    ensures !c.ephemeral ==> Reconciled(s, c).effective == s.effective
    ensures Reconciled(s, c).ledger == s.ledger
  {
  }

  /** The time of a reconcile is stored exactly when the count rises, or when the first one
      is above one. */
  lemma {:induction false} ScaleOutIsStoredIff(s: Scaler, c: Input)
    requires Countable(c)
    ensures var n, old_ := Recorded(s, c).value, s.desired;
            Reconciled(s, c).lastScaleOut ==
              if (old_.None? && n > 1) || (old_.Some? && n > old_.value) then Some(Stored(c.later)) else s.lastScaleOut
  {
  }

  /** The time that the reconcile looks for is the latest of all reservations. */
  lemma {:induction false} LatestOfAll(l: Ledger)
    ensures l == [] <==> LatestEffective(l).None?
    ensures l != [] ==>
              && (exists i :: 0 <= i < |l| && l[i].effective == LatestEffective(l).value)
              && forall i :: 0 <= i < |l| ==> l[i].effective <= LatestEffective(l).value
  {
    if l != [] {
      LatestOfAll(l[..|l| - 1]);
    }
  }

  // ---- Runs ----

  datatype Event = Webhook(hook: Hook) | Reconcile(input: Input)

  function Now(e: Event): int { if e.Webhook? then e.hook.now else e.input.now }

  function Later(e: Event): int { if e.Webhook? then e.hook.later else e.input.later }

  function Next(s: Scaler, e: Event): Scaler {
    match e
    case Webhook(h) => s.(ledger := Scale(s.ledger, h))
    case Reconcile(c) => Reconciled(s, c)
  }

  /** The step at `n`, with its clock. */
  ghost predicate StepAt(states: seq<Scaler>, events: seq<Event>, n: int)
    requires |states| == |events| + 1 && 0 <= n < |events|
  {
    && states[n + 1] == Next(states[n], events[n])
    && Now(events[n]) <= Later(events[n])
    && (n > 0 ==> Later(events[n - 1]) <= Now(events[n]))
  }

  ghost predicate Run(states: seq<Scaler>, events: seq<Event>) {
    |states| == |events| + 1 && forall n :: 0 <= n < |events| ==> StepAt(states, events, n)
  }

  lemma {:induction false} ClockAdvances(states: seq<Scaler>, events: seq<Event>, i: nat, j: nat)
    requires Run(states, events) && i <= j < |events|
    ensures Later(events[i]) <= Later(events[j])
    decreases j
  {
    if i < j {
      ClockAdvances(states, events, i, j - 1);
      assert StepAt(states, events, j);
    }
  }

  predicate Rises(a: Option<int>, b: Option<int>) { b.Some? && ScalesOut(a, b.value) }

  predicate Falls(a: Option<int>, b: Option<int>) { a.Some? && b.Some? && b.value < a.value }

  lemma StoredGrows(a: int, b: int)
    requires a <= b
    ensures Stored(a) <= Stored(b)
  {
  }

  predicate Since(t: int, lastScaleOut: Option<int>) { lastScaleOut.Some? && t <= lastScaleOut.value }

  lemma RiseIsRecorded(s: Scaler, e: Event)
    requires Rises(s.desired, Next(s, e).desired)
    ensures Next(s, e).lastScaleOut == Some(Stored(Later(e)))
  {
  }

  /** Nothing but a rise moves the time of the last scale-out. */
  lemma {:induction false} OnlyRisesAreRecorded(s: Scaler, e: Event)
    ensures Next(s, e).lastScaleOut == s.lastScaleOut || Rises(s.desired, Next(s, e).desired)
  {
  }

  lemma StepRemembers(s: Scaler, e: Event, t: int)
    requires Since(t, s.lastScaleOut) && t <= Stored(Later(e))
    ensures Since(t, Next(s, e).lastScaleOut)
  {
  }

  lemma {:induction false} ScaleOutRemembered(states: seq<Scaler>, events: seq<Event>, i: nat, j: nat)
    requires Run(states, events) && i < j < |states| && Rises(states[i].desired, states[i + 1].desired)
    ensures Since(Stored(Later(events[i])), states[j].lastScaleOut)
    decreases j
  {
    assert StepAt(states, events, j - 1);
    if i + 1 < j {
      ScaleOutRemembered(states, events, i, j - 1);
      ClockAdvances(states, events, i, j - 1);
      StoredGrows(Later(events[i]), Later(events[j - 1]));
      StepRemembers(states[j - 1], events[j - 1], Stored(Later(events[i])));
    } else {
      RiseIsRecorded(states[i], events[i]);
    }
  }

  /** While a lower count is wanted, a reconcile records it exactly when the delay has
      passed since the stored time of the last scale-out. */
  lemma FallsIff(s: Scaler, c: Input)
    requires Wanted(s, c).Some? && s.lastScaleOut.Some? && Falls(s.desired, Wanted(s, c))
    ensures Falls(s.desired, Reconciled(s, c).desired) <==> s.lastScaleOut.value + c.delay <= c.now
  {
  }

  /** Anti-flapping: if the recorded count rises in one reconcile, or starts above one,
      and falls in a later one, the scale-down delay lies between the two clock
      readings, except for the fraction of a second that the API server drops. */
  lemma NoFlapping(states: seq<Scaler>, events: seq<Event>, i: nat, j: nat, delay: int)
    requires Run(states, events) && i < j < |events|
    requires forall k :: 0 <= k < |events| && events[k].Reconcile? ==> events[k].input.delay == delay
    requires Rises(states[i].desired, states[i + 1].desired) && Falls(states[j].desired, states[j + 1].desired)
    ensures Now(events[j]) >= Later(events[i]) - Later(events[i]) % SECOND + delay
  {
    assert StepAt(states, events, i);
    assert StepAt(states, events, j);
    ScaleOutRemembered(states, events, i, j);
  }

  /** The fraction is really lost: a rise 0.9 seconds into a second, and a fall 9.1
      seconds later although the delay is ten. */
  lemma FractionIsLost(c: Input)
    requires c.minimum == Some(1) && c.minReplicas == Some(1) && c.maxReplicas == Some(9) && c.delay == 10 * SECOND
    ensures var rise := c.(suggestion := Suggested(3), now := 1_900_000_000, later := 1_900_000_000);
            var fall := c.(suggestion := Suggested(2), now := 11 * SECOND, later := 11 * SECOND);
            var s0 := Scaler([], Some(1), None, None, None);
            var s1 := Next(s0, Reconcile(rise));
            var s2 := Next(s1, Reconcile(fall));
            && Rises(s0.desired, s1.desired) && Falls(s1.desired, s2.desired)
            && fall.now < rise.later + c.delay
  {
    assert Stored(1_900_000_000) == SECOND;
  }

  /** The maximum is constant and no minimum in force is above it. */
  predicate BoundedInput(e: Event, max: int) {
    e.Reconcile? && e.input.minimum.Some? ==> e.input.maxReplicas == Some(max) && e.input.minimum.value <= max
  }

  predicate AtMost(desired: Option<int>, max: int) { desired.Some? ==> desired.value <= max }

  lemma {:induction false} NeverAboveMax(states: seq<Scaler>, events: seq<Event>, max: int, n: nat)
    requires Run(states, events) && n < |states| && AtMost(states[0].desired, max)
    requires forall i :: 0 <= i < |events| ==> BoundedInput(events[i], max)
    ensures AtMost(states[n].desired, max)
  {
    if n > 0 {
      NeverAboveMax(states, events, max, n - 1);
      assert StepAt(states, events, n - 1);
      assert BoundedInput(events[n - 1], max);
    }
  }

  /** Every count a reconcile records lies between the minimum in force and the
      maximum, inside the scale-down delay too. */
  lemma RecordedWithinBounds(states: seq<Scaler>, events: seq<Event>, max: int, n: nat)
    requires Run(states, events) && n < |events| && AtMost(states[0].desired, max)
    requires forall i :: 0 <= i < |events| ==> BoundedInput(events[i], max)
    requires events[n].Reconcile? && ComputeReplicas(states[n], events[n].input).Some?
    ensures states[n + 1].desired.Some? && events[n].input.minimum.Some?
    ensures events[n].input.minimum.value <= states[n + 1].desired.value <= max
  {
    NeverAboveMax(states, events, max, n);
    assert StepAt(states, events, n);
    assert BoundedInput(events[n], max);
  }
}
