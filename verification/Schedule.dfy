/** Scheduled overrides: which period of a recurring schedule is active and which
    comes next. Times are nanoseconds in a zone of fixed offset. */
module Schedule {
  import opened Basics

  const DAY := 86_400_000_000_000

  datatype Period = Period(start: int, end: int)

  /** The rule of a schedule; `until` 0 means it never ends. */
  datatype Rule = Rule(frequency: string, until: int)

  /** Why a schedule cannot be matched; `SeveralActive` is the source's "[bug]" branch. */
  datatype Reason = UnknownFrequency | TooLong | SeveralActive

  datatype Match = Match(active: Option<Period>, upcoming: Option<Period>) | ScheduleError(reason: Reason)

  /** The period of a frequency, for those of fixed length. */
  function PeriodOf(frequency: string): Option<int> {
    if frequency == "Daily" then Some(DAY)
    else if frequency == "Weekly" then Some(7 * DAY)
    else None
  }

  /** An occurrence of the rule: every `period` from `start`, up to and including `until`. */
  ghost predicate Occurs(start: int, period: int, until: int, o: int) {
    (exists n: nat :: o == start + n * period) && (until == 0 || o <= until)
  }

  /** rrule.Between(after, before, inc = true), enumerated from occurrence `o`. */
  function Between(o: int, period: int, until: int, after: int, before: int): seq<int>
    requires period > 0
    decreases before - o
  {
    if o > before || (until != 0 && o > until) then []
    else (if o >= after then [o] else []) + Between(o + period, period, until, after, before)
  }

  function PeriodAt(o: int, duration: int): Period { Period(o, o + duration) }

  /** The part of the source that is the same for every frequency: `starts` are the
      occurrences in the window of the active period, `nexts` those still to come. */
  function Choose(starts: seq<int>, nexts: seq<int>, duration: int): Match {
    if |starts| > 1 then ScheduleError(SeveralActive)
    else Match(if |starts| == 1 then Some(PeriodAt(starts[0], duration)) else None,
               if |nexts| > 0 then Some(PeriodAt(nexts[0], duration)) else None)
  }

  function MatchOnce(now: int, start: int, end: int): Match {
    if now < start then Match(None, Some(Period(start, end)))
    else if now < end then Match(Some(Period(start, end)), None)
    else Match(None, None)
  }

  /** Any frequency, given its occurrences and the instant one frequency after now. */
  function MatchRecurring(now: int, duration: int, later: int, starts: seq<int>, nexts: seq<int>): Match {
    if duration > later - now then ScheduleError(TooLong) else Choose(starts, nexts, duration)
  }

  /** What the calendar and the recurrence library say for a frequency of varying
      length: the instant one frequency after now, and the rule's occurrences. */
  datatype Calendar = Calendar(later: int, occurrences: seq<int>)

  /** rrule.Between(after, before, inc = true) on listed occurrences. */
  function Window(occurrences: seq<int>, after: int, before: int): seq<int> {
    if occurrences == [] then []
    else
      (if after <= occurrences[0] <= before then [occurrences[0]] else [])
      + Window(occurrences[1..], after, before)
  }

  function MatchSchedule(now: int, start: int, end: int, rule: Rule, calendar: Calendar): Match {
    var duration := end - start;
    if rule.frequency == "" then MatchOnce(now, start, end)
    else if PeriodOf(rule.frequency).Some? then
      var period := PeriodOf(rule.frequency).value;
      MatchRecurring(now, duration, now + period,
                     Between(start, period, rule.until, now - duration + 1, now),
                     Between(start, period, rule.until, now + 1, now + period))
    else if Varying(rule) then
      MatchRecurring(now, duration, calendar.later,
                     Window(calendar.occurrences, now - duration + 1, now),
                     Window(calendar.occurrences, now + 1, calendar.later))
    else ScheduleError(UnknownFrequency)
  }

  predicate Varying(rule: Rule) { rule.frequency == "Monthly" || rule.frequency == "Yearly" }

  /** An override without recurrence is active from its start up to its end, upcoming
      before, and never an error. */
  lemma OnceMatch(now: int, start: int, end: int, rule: Rule, calendar: Calendar)
    requires rule.frequency == ""
    ensures var m := MatchSchedule(now, start, end, rule, calendar);
            && m.Match?
            && m.active == (if start <= now < end then Some(Period(start, end)) else None)
            && m.upcoming == (if now < start then Some(Period(start, end)) else None)
  {
  }

  /** Exactly the five documented frequencies are known. */
  lemma UnknownFrequencies(now: int, start: int, end: int, rule: Rule, calendar: Calendar)
    ensures MatchSchedule(now, start, end, rule, calendar) == ScheduleError(UnknownFrequency) <==>
              rule.frequency !in ["", "Daily", "Weekly", "Monthly", "Yearly"]
  {
  }

  /** The frequencies of fixed length, in nanoseconds. */
  lemma FixedPeriods()
    ensures PeriodOf("Daily") == Some(24 * 60 * 60 * SECOND) && PeriodOf("Weekly") == Some(7 * 24 * 60 * 60 * SECOND)
    ensures PeriodOf("Monthly") == None && PeriodOf("Yearly") == None
  {
    assert "Monthly"[0] == 'M' && "Yearly"[0] == 'Y' && "Daily"[0] == 'D' && "Weekly"[0] == 'W';
  }

  // ---- What Between lists ----

  lemma OccurrenceStep(start: int, period: int, n: nat)
    ensures start + period + n * period == start + (n + 1) * period
  {
  }

  lemma LaterOccurrence(o: int, period: int, until: int, x: int)
    requires period > 0
    ensures Occurs(o, period, until, x) <==>
              (x == o && (until == 0 || o <= until)) || Occurs(o + period, period, until, x)
  {
    if Occurs(o, period, until, x) && x != o {
      var n: nat :| x == o + n * period;
      assert n > 0;
      OccurrenceStep(o, period, n - 1);
    }
    if Occurs(o + period, period, until, x) {
      var n: nat :| x == o + period + n * period;
      OccurrenceStep(o, period, n);
      assert x == o + (n + 1) * period;
    }
    if x == o {
      assert o == o + 0 * period;
    }
  }

  lemma OccurrenceNotBefore(o: int, period: int, until: int, x: int)
    requires period > 0 && Occurs(o, period, until, x)
    ensures x >= o
  {
    var n: nat :| x == o + n * period;
    assert n * period >= 0;
  }

  /** Exactly the occurrences in the window. */
  lemma {:induction false} BetweenLists(o: int, period: int, until: int, after: int, before: int, x: int)
    requires period > 0
    ensures x in Between(o, period, until, after, before) <==> after <= x <= before && Occurs(o, period, until, x)
    decreases before - o
  {
    if o > before || (until != 0 && o > until) {
      if Occurs(o, period, until, x) {
        OccurrenceNotBefore(o, period, until, x);
      }
    } else {
      BetweenLists(o + period, period, until, after, before, x);
      LaterOccurrence(o, period, until, x);
    }
  }

  /** Ascending from `low`, at least a period apart. */
  predicate Spaced(b: seq<int>, period: int, low: int) {
    && (forall i :: 0 <= i < |b| ==> low <= b[i])
    && (forall i, j :: 0 <= i < j < |b| ==> b[i] + period <= b[j])
  }

  lemma ConsSpaced(o: int, rest: seq<int>, period: int)
    requires period > 0 && Spaced(rest, period, o + period)
    ensures Spaced([o] + rest, period, o)
  {
    var b := [o] + rest;
    forall i, j | 0 <= i < j < |b| ensures b[i] + period <= b[j] {
      assert b[j] == rest[j - 1];
      if i > 0 {
        assert b[i] == rest[i - 1];
      }
    }
  }

  lemma {:induction false} BetweenSpaced(o: int, period: int, until: int, after: int, before: int)
    requires period > 0
    ensures Spaced(Between(o, period, until, after, before), period, o)
    decreases before - o
  {
    if !(o > before || (until != 0 && o > until)) {
      BetweenSpaced(o + period, period, until, after, before);
      var rest := Between(o + period, period, until, after, before);
      ConsSpaced(o, rest, period);
      assert [] + rest == rest;
    }
  }

  // ---- The two questions of the autoscaler ----

  /** A window no longer than the period holds at most one occurrence, so the "[bug]"
      branch is never taken. */
  lemma {:induction false} AtMostOneActive(now: int, start: int, period: int, until: int, duration: int)
    requires period > 0 && duration <= period
    ensures |Between(start, period, until, now - duration + 1, now)| <= 1
  {
    var b := Between(start, period, until, now - duration + 1, now);
    BetweenSpaced(start, period, until, now - duration + 1, now);
    if |b| > 1 {
      BetweenLists(start, period, until, now - duration + 1, now, b[0]);
      BetweenLists(start, period, until, now - duration + 1, now, b[1]);
    }
  }

  ghost predicate ActiveAt(start: int, period: int, until: int, duration: int, now: int, o: int) {
    Occurs(start, period, until, o) && o <= now < o + duration
  }

  /** For daily and weekly schedules: an error exactly when an override is longer than
      its period; otherwise the active period is the occurrence that contains now, and
      the upcoming one is the least occurrence after now, within one period. */
  lemma {:induction false} RecurringMatch(now: int, start: int, end: int, rule: Rule, calendar: Calendar)
    requires PeriodOf(rule.frequency).Some?
    ensures var m := MatchSchedule(now, start, end, rule, calendar);
            && (m.ScheduleError? <==> end - start > PeriodOf(rule.frequency).value)
            && (m.ScheduleError? ==> m.reason.TooLong?)
    ensures var m := MatchSchedule(now, start, end, rule, calendar);
            var period, duration := PeriodOf(rule.frequency).value, end - start;
            m.Match? ==>
              && (m.active.Some? ==> ActiveAt(start, period, rule.until, duration, now, m.active.value.start)
                                     && m.active.value.end == m.active.value.start + duration)
              && (m.active.None? ==> forall o :: !ActiveAt(start, period, rule.until, duration, now, o))
    ensures var m := MatchSchedule(now, start, end, rule, calendar);
            var period, duration := PeriodOf(rule.frequency).value, end - start;
            m.Match? ==>
              && (m.upcoming.Some? ==>
                    var u := m.upcoming.value;
                    && u.end == u.start + duration && now < u.start <= now + period
                    && Occurs(start, period, rule.until, u.start)
                    && forall o :: now < o && Occurs(start, period, rule.until, o) ==> u.start <= o)
              && (m.upcoming.None? ==> forall o :: now < o <= now + period ==> !Occurs(start, period, rule.until, o))
  {
    var period, duration := PeriodOf(rule.frequency).value, end - start;
    if duration <= period {
      AtMostOneActive(now, start, period, rule.until, duration);
      ActiveMatch(now, start, period, rule.until, duration);
      UpcomingMatch(now, start, period, rule.until);
    }
  }

  lemma {:induction false} ActiveMatch(now: int, start: int, period: int, until: int, duration: int)
    requires period > 0
    ensures var b := Between(start, period, until, now - duration + 1, now);
            && (b != [] ==> ActiveAt(start, period, until, duration, now, b[0]))
            && (b == [] ==> forall o :: !ActiveAt(start, period, until, duration, now, o))
  {
    var b := Between(start, period, until, now - duration + 1, now);
    if b != [] {
      BetweenLists(start, period, until, now - duration + 1, now, b[0]);
    } else {
      forall o ensures !ActiveAt(start, period, until, duration, now, o) {
        BetweenLists(start, period, until, now - duration + 1, now, o);
      }
    }
  }

  lemma {:induction false} FirstIsLeast(o: int, period: int, until: int, after: int, before: int, x: int)
    requires period > 0 && after <= x <= before && Occurs(o, period, until, x)
    ensures var b := Between(o, period, until, after, before); b != [] && b[0] <= x
  {
    var b := Between(o, period, until, after, before);
    BetweenLists(o, period, until, after, before, x);
    BetweenSpaced(o, period, until, after, before);
    var i := Position(b, x);
    assert i > 0 ==> b[0] + period <= b[i];
  }

  lemma {:induction false} UpcomingMatch(now: int, start: int, period: int, until: int)
    requires period > 0
    ensures var b := Between(start, period, until, now + 1, now + period);
            && (b != [] ==> now < b[0] <= now + period && Occurs(start, period, until, b[0])
                            && forall o :: now < o && Occurs(start, period, until, o) ==> b[0] <= o)
            && (b == [] ==> forall o :: now < o <= now + period ==> !Occurs(start, period, until, o))
  {
    var b := Between(start, period, until, now + 1, now + period);
    if b != [] {
      BetweenLists(start, period, until, now + 1, now + period, b[0]);
      forall o | now < o && Occurs(start, period, until, o) ensures b[0] <= o {
        if o <= now + period {
          FirstIsLeast(start, period, until, now + 1, now + period, o);
        }
      }
    } else {
      forall o | now < o <= now + period ensures !Occurs(start, period, until, o) {
        BetweenLists(start, period, until, now + 1, now + period, o);
      }
    }
  }

  // ---- Frequencies of varying length ----

  predicate Ascending(occ: seq<int>) {
    forall i, j :: 0 <= i < j < |occ| ==> occ[i] < occ[j]
  }

  lemma {:induction false} WindowLists(occ: seq<int>, after: int, before: int, x: int)
    ensures x in Window(occ, after, before) <==> x in occ && after <= x <= before
  {
    if occ != [] {
      assert occ == [occ[0]] + occ[1..];
      WindowLists(occ[1..], after, before, x);
    }
  }

  lemma {:induction false} WindowAscends(occ: seq<int>, after: int, before: int)
    requires Ascending(occ)
    ensures Ascending(Window(occ, after, before))
  {
    if occ != [] {
      WindowAscends(occ[1..], after, before);
      var rest := Window(occ[1..], after, before);
      forall j | 0 <= j < |rest| ensures occ[0] < rest[j] {
        WindowLists(occ[1..], after, before, rest[j]);
        var i :| 0 <= i < |occ[1..]| && occ[1..][i] == rest[j];
        assert occ[0] < occ[i + 1];
      }
    }
  }

  /** Two occurrences of the override cover the same instant. */
  ghost predicate Overlap(occ: seq<int>, duration: int, now: int) {
    exists i, j :: 0 <= i < j < |occ| && occ[j] <= now < occ[i] + duration
  }

  lemma Position(s: seq<int>, x: int) returns (i: nat)
    requires x in s
    ensures i < |s| && s[i] == x
  {
    i :| 0 <= i < |s| && s[i] == x;
  }

  lemma {:induction false} SeveralOverlap(occ: seq<int>, duration: int, now: int)
    requires Ascending(occ) && |Window(occ, now - duration + 1, now)| > 1
    ensures Overlap(occ, duration, now)
  {
    var w := Window(occ, now - duration + 1, now);
    WindowAscends(occ, now - duration + 1, now);
    var x, y := w[0], w[1];
    WindowLists(occ, now - duration + 1, now, x);
    WindowLists(occ, now - duration + 1, now, y);
    var i := Position(occ, x);
    var j := Position(occ, y);
    assert x < y && i < j;
  }

  lemma TwoMembers(s: seq<int>, x: int, y: int)
    requires x in s && y in s && x != y
    ensures |s| > 1
  {
    var i := Position(s, x);
    var j := Position(s, y);
    assert i != j;
  }

  lemma {:induction false} OverlapMeansSeveral(occ: seq<int>, duration: int, now: int, x: int, y: int)
    requires x in occ && y in occ && x < y <= now < x + duration
    ensures |Window(occ, now - duration + 1, now)| > 1
  {
    WindowLists(occ, now - duration + 1, now, x);
    WindowLists(occ, now - duration + 1, now, y);
    TwoMembers(Window(occ, now - duration + 1, now), x, y);
  }

  /** The window of the active period holds several occurrences exactly when two of
      them cover now. */
  lemma {:induction false} SeveralIffOverlap(occ: seq<int>, duration: int, now: int)
    requires Ascending(occ)
    ensures |Window(occ, now - duration + 1, now)| > 1 <==> Overlap(occ, duration, now)
  {
    if |Window(occ, now - duration + 1, now)| > 1 {
      SeveralOverlap(occ, duration, now);
    }
    if i, j :| 0 <= i < j < |occ| && occ[j] <= now < occ[i] + duration {
      OverlapMeansSeveral(occ, duration, now, occ[i], occ[j]);
    }
  }

  lemma {:induction false} VaryingMatch(now: int, start: int, end: int, rule: Rule, calendar: Calendar)
    requires Varying(rule)
    ensures MatchSchedule(now, start, end, rule, calendar) ==
              MatchRecurring(now, end - start, calendar.later,
                             Window(calendar.occurrences, now - (end - start) + 1, now),
                             Window(calendar.occurrences, now + 1, calendar.later))
  {
    assert rule.frequency[0] != 'D' && rule.frequency[0] != 'W';
    assert "Daily"[0] == 'D' && "Weekly"[0] == 'W';
  }

  /** The "[bug]" branch, for every rule of varying length and every calendar: it is
      taken exactly when the override is not too long for the coming month or year
      and two of its occurrences overlap now. */
  lemma {:induction false} BugBranchIffOverlap(now: int, start: int, end: int, rule: Rule, calendar: Calendar)
    requires Varying(rule) && Ascending(calendar.occurrences)
    ensures MatchSchedule(now, start, end, rule, calendar) == ScheduleError(SeveralActive) <==>
              end - start <= calendar.later - now && Overlap(calendar.occurrences, end - start, now)
    ensures MatchSchedule(now, start, end, rule, calendar) == ScheduleError(TooLong) <==>
              end - start > calendar.later - now
  {
    VaryingMatch(now, start, end, rule, calendar);
    SeveralIffOverlap(calendar.occurrences, end - start, now);
  }

  /** Some instant is covered twice exactly when a gap between neighbouring
      occurrences is shorter than the override. */
  lemma OverlapIffShortGap(occ: seq<int>, duration: int)
    requires Ascending(occ)
    ensures (exists now :: Overlap(occ, duration, now)) <==>
            exists i :: 0 <= i < |occ| - 1 && occ[i + 1] - occ[i] < duration
  {
    if now :| Overlap(occ, duration, now) {
      var i, j :| 0 <= i < j < |occ| && occ[j] <= now < occ[i] + duration;
      assert i + 1 < j ==> occ[i + 1] < occ[j];
      assert occ[i + 1] - occ[i] < duration;
    }
    if i :| 0 <= i < |occ| - 1 && occ[i + 1] - occ[i] < duration {
      assert occ[i + 1] <= occ[i + 1] < occ[i] + duration;
      assert Overlap(occ, duration, occ[i + 1]);
    }
  }

  lemma {:induction false} ActiveInCalendar(occ: seq<int>, duration: int, now: int, o: int)
    requires |Window(occ, now - duration + 1, now)| <= 1
    ensures var w := Window(occ, now - duration + 1, now);
            o in occ && o <= now < o + duration <==> |w| == 1 && w[0] == o
  {
    var w := Window(occ, now - duration + 1, now);
    WindowLists(occ, now - duration + 1, now, o);
    assert |w| == 1 ==> w == [w[0]];
  }

  lemma {:induction false} FirstInWindow(occ: seq<int>, after: int, before: int, o: int)
    requires Ascending(occ) && o in occ && after <= o <= before
    ensures var w := Window(occ, after, before); w != [] && w[0] <= o
  {
    var w := Window(occ, after, before);
    WindowAscends(occ, after, before);
    WindowLists(occ, after, before, o);
    var i := Position(w, o);
  }

  lemma {:induction false} FirstIsListed(occ: seq<int>, after: int, before: int)
    requires Window(occ, after, before) != []
    ensures var x := Window(occ, after, before)[0]; x in occ && after <= x <= before
  {
    WindowLists(occ, after, before, Window(occ, after, before)[0]);
  }

  lemma {:induction false} UpcomingInCalendar(occ: seq<int>, now: int, later: int, o: int)
    requires Ascending(occ)
    ensures var w := Window(occ, now + 1, later);
            && (w != [] ==> w[0] in occ && now < w[0] <= later && (o in occ && now < o ==> w[0] <= o))
            && (w == [] && o in occ && now < o ==> later < o)
  {
    if Window(occ, now + 1, later) != [] {
      FirstIsListed(occ, now + 1, later);
    }
    if o in occ && now < o <= later {
      FirstInWindow(occ, now + 1, later, o);
    }
  }

  lemma {:induction false} CalendarActive(now: int, start: int, end: int, rule: Rule, calendar: Calendar, o: int)
    requires Varying(rule) && MatchSchedule(now, start, end, rule, calendar).Match?
    ensures var m, occ, duration := MatchSchedule(now, start, end, rule, calendar), calendar.occurrences, end - start;
            && (o in occ && o <= now < o + duration <==> m.active == Some(PeriodAt(o, duration)))
            && (m.active.Some? ==> m.active.value == PeriodAt(m.active.value.start, duration))
  {
    VaryingMatch(now, start, end, rule, calendar);
    ActiveInCalendar(calendar.occurrences, end - start, now, o);
  }

  lemma {:induction false} CalendarUpcoming(now: int, start: int, end: int, rule: Rule, calendar: Calendar)
    requires Varying(rule) && MatchSchedule(now, start, end, rule, calendar).Match?
    ensures var m := MatchSchedule(now, start, end, rule, calendar);
            var nexts := Window(calendar.occurrences, now + 1, calendar.later);
            m.upcoming == if nexts == [] then None else Some(PeriodAt(nexts[0], end - start))
  {
    VaryingMatch(now, start, end, rule, calendar);
  }

  /** Otherwise a rule of varying length is matched like one of fixed length: active
      is the occurrence that contains now, upcoming the least one after now. */
  lemma {:induction false} CalendarMatch(now: int, start: int, end: int, rule: Rule, calendar: Calendar, o: int)
    requires Varying(rule) && Ascending(calendar.occurrences)
    requires MatchSchedule(now, start, end, rule, calendar).Match?
    ensures var m, occ, duration := MatchSchedule(now, start, end, rule, calendar), calendar.occurrences, end - start;
            && (o in occ && o <= now < o + duration <==> m.active == Some(PeriodAt(o, duration)))
            && (m.active.Some? ==> m.active.value == PeriodAt(m.active.value.start, duration))
    ensures var m, occ, duration := MatchSchedule(now, start, end, rule, calendar), calendar.occurrences, end - start;
            && (m.upcoming.Some? ==>
                  var u := m.upcoming.value;
                  && u.start in occ && u.end == u.start + duration && now < u.start <= calendar.later
                  && (o in occ && now < o ==> u.start <= o))
            && (m.upcoming.None? && o in occ && now < o ==> calendar.later < o)
  {
    CalendarActive(now, start, end, rule, calendar, o);
    CalendarUpcoming(now, start, end, rule, calendar);
    UpcomingInCalendar(calendar.occurrences, now, calendar.later, o);
  }

  /** February is short: an override of 30 days that recurs on the first of the month
      is active twice on the second of March. Day 0 is the first of January. */
  lemma {:induction false} FebruaryIsShort()
    ensures var calendar := Calendar(91 * DAY, [0, 31 * DAY, 59 * DAY, 90 * DAY]);
            && MatchSchedule(60 * DAY, 0, 30 * DAY, Rule("Monthly", 0), calendar) == ScheduleError(SeveralActive)
  {
    var calendar := Calendar(91 * DAY, [0, 31 * DAY, 59 * DAY, 90 * DAY]);
    var occ := calendar.occurrences;
    assert occ[1] == 31 * DAY && occ[2] == 59 * DAY;
    assert Overlap(occ, 30 * DAY, 60 * DAY);
    BugBranchIffOverlap(60 * DAY, 0, 30 * DAY, Rule("Monthly", 0), calendar);
  }

  // ---- A list of overrides ----

  datatype Override = Override(start: int, end: int, rule: Rule, minReplicas: Option<int>)

  function MatchOverride(o: Override, now: int, library: (Override, int) -> Calendar): Match {
    MatchSchedule(now, o.start, o.end, o.rule, library(o, now))
  }

  /** The overrides that count now, by position in the list. */
  datatype InForce = InForce(active: Option<nat>, upcoming: Option<nat>) | BadSchedule

  ghost predicate IsActive(os: seq<Override>, now: int, library: (Override, int) -> Calendar, i: int) {
    0 <= i < |os| && MatchOverride(os[i], now, library).Match? && MatchOverride(os[i], now, library).active.Some?
  }

  ghost predicate Starts(os: seq<Override>, now: int, library: (Override, int) -> Calendar, i: int, at: int) {
    && 0 <= i < |os| && MatchOverride(os[i], now, library).Match? && MatchOverride(os[i], now, library).upcoming.Some?
    && MatchOverride(os[i], now, library).upcoming.value.start == at
  }

  ghost predicate Soonest(os: seq<Override>, now: int, library: (Override, int) -> Calendar, n: nat, first: int) {
    && Starts(os, now, library, n, first)
    && forall i, at :: Starts(os, now, library, i, at) ==> first < at || (first == at && n <= i)
  }

  /** The first active override in list order, and the one that starts soonest, the
      earlier in the list among equals; a single bad schedule spoils the list. */
  ghost predicate Prioritised(os: seq<Override>, now: int, library: (Override, int) -> Calendar, r: InForce) {
    match r
    case BadSchedule => exists i :: 0 <= i < |os| && MatchOverride(os[i], now, library).ScheduleError?
    case InForce(active, upcoming) =>
      && (forall i :: 0 <= i < |os| ==> MatchOverride(os[i], now, library).Match?)
      && (active.None? ==> forall i :: !IsActive(os, now, library, i))
      && (active.Some? ==> IsActive(os, now, library, active.value)
                           && forall i :: 0 <= i < active.value ==> !IsActive(os, now, library, i))
      && (upcoming.None? ==> forall i, at :: !Starts(os, now, library, i, at))
      && (upcoming.Some? ==> exists first :: Soonest(os, now, library, upcoming.value, first))
  }

  method MatchScheduledOverrides(os: seq<Override>, now: int, library: (Override, int) -> Calendar) returns (r: InForce)
    ensures Prioritised(os, now, library, r)
  {
    var active: Option<nat>, upcoming: Option<nat> := None, None;
    var soonest := 0;
    for n := 0 to |os|
      invariant forall i :: 0 <= i < n ==> MatchOverride(os[i], now, library).Match?
      invariant active.None? ==> forall i :: i < n ==> !IsActive(os, now, library, i)
      invariant active.Some? ==> active.value < n && IsActive(os, now, library, active.value)
                                 && forall i :: 0 <= i < active.value ==> !IsActive(os, now, library, i)
      invariant upcoming.None? ==> forall i, at :: i < n ==> !Starts(os, now, library, i, at)
      invariant upcoming.Some? ==> Starts(os, now, library, upcoming.value, soonest) && upcoming.value < n
      invariant upcoming.Some? ==>
                  forall i, at :: i < n && Starts(os, now, library, i, at) ==>
                                    soonest < at || (soonest == at && upcoming.value <= i)
    {
      var m := MatchOverride(os[n], now, library);
      if m.ScheduleError? {
        return BadSchedule;
      }
      if m.active.Some? && active.None? {
        active := Some(n);
      }
      if m.upcoming.Some? && (upcoming.None? || m.upcoming.value.start < soonest) {
        upcoming, soonest := Some(n), m.upcoming.value.start;
      }
    }
    if upcoming.Some? {
      assert Soonest(os, now, library, upcoming.value, soonest);
    }
    return InForce(active, upcoming);
  }

  /** The minimum in force: the first active override's, if it sets one. */
  function MinimumOf(base: Option<int>, os: seq<Override>, active: Option<nat>): int
    requires active.Some? ==> active.value < |os|
  {
    if active.Some? && os[active.value].minReplicas.Some? then os[active.value].minReplicas.value
    else if base.Some? && base.value >= 0 then base.value
    else 1
  }

  /** The minimum in force is that of the first active override if it sets one, and else
      the one of the spec, which is one when unset or negative. */
  lemma MinimumInForce(base: Option<int>, os: seq<Override>, now: int, library: (Override, int) -> Calendar, r: InForce)
    requires r.InForce? && Prioritised(os, now, library, r)
    ensures var usual := if base.Some? && base.value >= 0 then base.value else 1;
            && ((forall i :: !IsActive(os, now, library, i)) ==> MinimumOf(base, os, r.active) == usual)
            && forall i :: IsActive(os, now, library, i)
                           && (forall j :: 0 <= j < i ==> !IsActive(os, now, library, j)) ==>
                 MinimumOf(base, os, r.active) == if os[i].minReplicas.Some? then os[i].minReplicas.value else usual
  {
    forall i | IsActive(os, now, library, i) && (forall j :: 0 <= j < i ==> !IsActive(os, now, library, j))
      ensures r.active == Some(i)
    {
      assert r.active.Some? && IsActive(os, now, library, r.active.value);
      assert !(r.active.value < i) && !(i < r.active.value);
    }
  }
}
