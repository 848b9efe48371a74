/**
 * Cron schedules as the set of their firing instants, catching up on missed firings
 * (internal/controller/energyawarecronjob_controller.go) and the webhook's check that a window ends before the
 * next firing (internal/webhook/energyawarecronjob_webhook.go). Instants and durations are whole seconds.
 */
module Cron {
  import opened Options

  /** Next(t), the least firing after t. */
  type Schedule = int -> int

  ghost predicate IsSchedule(next: Schedule) {
    && (forall t :: next(t) > t)
    && (forall t, u :: t <= u < next(t) ==> next(u) == next(t))
  }

  predicate Fires(next: Schedule, x: int) {
    next(x - 1) == x
  }

  lemma NextIsLeastFiring(next: Schedule, t: int)
    requires IsSchedule(next)
    ensures Fires(next, next(t))
    ensures forall x :: t < x && Fires(next, x) ==> next(t) <= x
  {
    assert next(next(t) - 1) == next(t);
    forall x | t < x && Fires(next, x)
      ensures next(t) <= x
    {
      assert x < next(t) ==> next(x - 1) == next(t);
    }
  }

  /** The (k+1)-th firing after t. */
  function Nth(next: Schedule, t: int, k: nat): int {
    if k == 0 then next(t) else next(Nth(next, t, k - 1))
  }

  /** The firings after t and before end. */
  function Firings(next: Schedule, t: int, end: int): set<int> {
    set x | t < x < end && Fires(next, x)
  }

  lemma FiringsUpToNext(next: Schedule, t: int, m: int)
    requires IsSchedule(next) && m > t && Fires(next, m)
    ensures Firings(next, t, next(m)) == Firings(next, t, m) + {m}
  {
    NextIsLeastFiring(next, m);
  }

  lemma {:induction false} FiringsBeforeNth(next: Schedule, t: int, k: nat)
    requires IsSchedule(next)
    ensures Nth(next, t, k) > t && Fires(next, Nth(next, t, k))
    ensures |Firings(next, t, Nth(next, t, k))| == k
  {
    if k == 0 {
      NextIsLeastFiring(next, t);
      assert Firings(next, t, next(t)) == {};
    } else {
      FiringsBeforeNth(next, t, k - 1);
      FiringsUpToNext(next, t, Nth(next, t, k - 1));
      NextIsLeastFiring(next, Nth(next, t, k - 1));
    }
  }

  lemma SubsetIsNoLarger(a: set<int>, b: set<int>)
    requires a <= b
    ensures |a| <= |b|
  {
    assert b == a + (b - a);
  }

  const MISSED_LIMIT := 100

  /**
   * nextScheduleTime's loop: step from firing to firing until one is not before the deadline, at most a hundred times.
   */
  function CatchUp(next: Schedule, n: int, deadline: int, i: nat): Option<int>
    requires i <= MISSED_LIMIT
    decreases MISSED_LIMIT - i, n
  {
    if n >= deadline then Some(n)
    else if i >= MISSED_LIMIT then None
    else CatchUp(next, next(n), deadline, i + 1)
  }

  function NextSchedule(next: Schedule, lastRun: int, now: int, startingDeadlineSeconds: Option<int>): Option<int> {
    if startingDeadlineSeconds.None? then Some(next(lastRun))
    else CatchUp(next, next(lastRun), now - startingDeadlineSeconds.value, 0)
  }

  method NextScheduleTime(next: Schedule, lastRun: int, now: int, startingDeadlineSeconds: Option<int>)
    returns (r: Option<int>)
    ensures r == NextSchedule(next, lastRun, now, startingDeadlineSeconds)
  {
    var n := next(lastRun);
    if startingDeadlineSeconds.None? {
      return Some(n);
    }
    var deadline := now - startingDeadlineSeconds.value;
    var i := 0;
    while n < deadline
      invariant 0 <= i <= MISSED_LIMIT
      invariant CatchUp(next, n, deadline, i) == CatchUp(next, next(lastRun), deadline, 0)
      decreases MISSED_LIMIT - i
    {
      if i >= MISSED_LIMIT {
        return None;
      }
      n := next(n);
      i := i + 1;
    }
    return Some(n);
  }

  /** The loop ends at firing k, the first that is not before the deadline, or the hundredth after the first. */
  lemma {:induction false} CatchUpFromNth(next: Schedule, t: int, deadline: int, i: nat) returns (k: nat)
    requires i <= MISSED_LIMIT
    ensures i <= k <= MISSED_LIMIT && (k > i ==> Nth(next, t, k - 1) < deadline)
    ensures Nth(next, t, k) < deadline ==> k == MISSED_LIMIT
    ensures CatchUp(next, Nth(next, t, i), deadline, i)
            == if Nth(next, t, k) >= deadline then Some(Nth(next, t, k)) else None
    decreases MISSED_LIMIT - i
  {
    k := i;
    if Nth(next, t, i) < deadline && i < MISSED_LIMIT {
      k := CatchUpFromNth(next, t, deadline, i + 1);
    }
  }

  /** r is the least firing after t that is not before the deadline. */
  ghost predicate IsLeastFrom(next: Schedule, t: int, deadline: int, r: int) {
    r > t && r >= deadline && Fires(next, r) && forall x :: x > t && x >= deadline && Fires(next, x) ==> r <= x
  }

  lemma ReachedDeadline(next: Schedule, t: int, deadline: int, i: nat)
    requires IsSchedule(next) && i <= MISSED_LIMIT && Nth(next, t, i) >= deadline
    requires i > 0 ==> Nth(next, t, i - 1) < deadline
    ensures |Firings(next, t, deadline)| <= MISSED_LIMIT
    ensures IsLeastFrom(next, t, deadline, Nth(next, t, i))
  {
    FiringsBeforeNth(next, t, i);
    SubsetIsNoLarger(Firings(next, t, deadline), Firings(next, t, Nth(next, t, i)));
    NextIsLeastFiring(next, if i > 0 then Nth(next, t, i - 1) else t);
  }

  lemma TooManyMissed(next: Schedule, t: int, deadline: int, n: int)
    requires IsSchedule(next) && t < n < deadline && Fires(next, n) && |Firings(next, t, n)| >= MISSED_LIMIT
    ensures |Firings(next, t, deadline)| > MISSED_LIMIT
  {
    SubsetIsNoLarger(Firings(next, t, n) + {n}, Firings(next, t, deadline));
  }

  /**
   * With a starting deadline the search succeeds exactly when at most a hundred firings lie after the last run and
   * before the cutoff, and then gives the least firing after the last run that is not before the cutoff.
   */
  lemma CatchUpIsExact(next: Schedule, lastRun: int, now: int, seconds: int)
    requires IsSchedule(next)
    ensures var r := NextSchedule(next, lastRun, now, Some(seconds));
            && (r.Some? <==> |Firings(next, lastRun, now - seconds)| <= 100)
            && (r.Some? ==> IsLeastFrom(next, lastRun, now - seconds, r.value))
  {
    var deadline := now - seconds;
    var k := CatchUpFromNth(next, lastRun, deadline, 0);
    assert NextSchedule(next, lastRun, now, Some(seconds)) == CatchUp(next, Nth(next, lastRun, 0), deadline, 0);
    if Nth(next, lastRun, k) >= deadline {
      ReachedDeadline(next, lastRun, deadline, k);
    } else {
      FiringsBeforeNth(next, lastRun, k);
      TooManyMissed(next, lastRun, deadline, Nth(next, lastRun, k));
    }
  }

  /** Without one it is the least firing after the last run. */
  lemma WithoutDeadlineNothingIsSkipped(next: Schedule, lastRun: int, now: int)
    requires IsSchedule(next)
    ensures var r := NextSchedule(next, lastRun, now, None);
            r.Some? && IsLeastFrom(next, lastRun, lastRun, r.value)
  {
    NextIsLeastFiring(next, lastRun);
  }

  /** With or without a deadline the occurrence considered next is a firing after the last run. */
  lemma NextScheduleIsLater(next: Schedule, lastRun: int, now: int, startingDeadlineSeconds: Option<int>)
    requires IsSchedule(next)
    ensures var r := NextSchedule(next, lastRun, now, startingDeadlineSeconds);
            r.Some? ==> r.value > lastRun && Fires(next, r.value)
  {
    NextIsLeastFiring(next, lastRun);
    if startingDeadlineSeconds.Some? {
      CatchUpIsExact(next, lastRun, now, startingDeadlineSeconds.value);
    }
  }

  // ---- The webhook ----

  const SAMPLES := 1000
  const MAX_DURATION := 9_223_372_036

  function Gap(next: Schedule, ref: int, i: nat): int {
    Nth(next, ref, i + 1) - Nth(next, ref, i)
  }

  /** Samples the gaps between a thousand consecutive firings after a fixed reference. */
  method MinimumCronInterval(next: Schedule, ref: int) returns (min: int)
    ensures forall i :: 0 <= i < SAMPLES - 1 ==> min <= Gap(next, ref, i)
    ensures min <= MAX_DURATION
    ensures min == MAX_DURATION || exists i :: 0 <= i < SAMPLES - 1 && min == Gap(next, ref, i)
  {
    min := MAX_DURATION;
    var prev := next(ref);
    for i := 1 to SAMPLES
      invariant prev == Nth(next, ref, i - 1) && min <= MAX_DURATION
      invariant forall j :: 0 <= j < i - 1 ==> min <= Gap(next, ref, j)
      invariant min == MAX_DURATION || exists j :: 0 <= j < i - 1 && min == Gap(next, ref, j)
    {
      var n := next(prev);
      assert n - prev == Gap(next, ref, i - 1);
      if n - prev < min {
        min := n - prev;
      }
      prev := n;
    }
  }

  /** Gaps that repeat with period p. */
  ghost predicate Repeats(next: Schedule, ref: int, p: nat) {
    forall i: nat :: Gap(next, ref, i + p) == Gap(next, ref, i)
  }

  /** For a schedule whose gaps repeat within the sample, the sampled minimum bounds every gap there will ever be. */
  lemma {:induction false} SampleBoundsAllGaps(next: Schedule, ref: int, p: nat, min: int, i: nat)
    requires 0 < p <= SAMPLES - 1 && Repeats(next, ref, p)
    requires forall j :: 0 <= j < SAMPLES - 1 ==> min <= Gap(next, ref, j)
    ensures min <= Gap(next, ref, i)
  {
    if i >= SAMPLES - 1 {
      SampleBoundsAllGaps(next, ref, p, min, i - p);
      assert Gap(next, ref, (i - p) + p) == Gap(next, ref, i - p);
    }
  }

  /** Every firing after the reference is one of the enumerated ones. */
  lemma FiringIsNth(next: Schedule, ref: int, c: int) returns (i: nat)
    requires IsSchedule(next) && c > ref && Fires(next, c)
    ensures Nth(next, ref, i) == c
  {
    i := 0;
    NextIsLeastFiring(next, ref);
    while Nth(next, ref, i) < c
      invariant Nth(next, ref, i) <= c
      decreases c - Nth(next, ref, i)
    {
      NextIsLeastFiring(next, Nth(next, ref, i));
      i := i + 1;
    }
  }

  datatype Verdict = Accepted | DurationExceedsWindow | EmptySchedule | InvalidSchedule | WindowExceedsInterval

  predicate HasPrefix(s: string, p: string) {
    |p| <= |s| && s[..|p|] == p
  }

  /** A schedule that names no zone itself is read in the given zone, UTC by default. */
  function ScheduleText(schedule: string, timeZone: Option<string>): string {
    if HasPrefix(schedule, "TZ=") || HasPrefix(schedule, "CRON_TZ=") then schedule
    else "TZ=" + (if timeZone.Some? && timeZone.value != "" then timeZone.value else "UTC") + " " + schedule
  }

  lemma ScheduleTextShape(schedule: string, timeZone: Option<string>)
    ensures ScheduleText("TZ=" + schedule, timeZone) == "TZ=" + schedule
    ensures ScheduleText("CRON_TZ=" + schedule, timeZone) == "CRON_TZ=" + schedule
    ensures (forall s :: schedule != "TZ=" + s && schedule != "CRON_TZ=" + s) ==>
              ScheduleText(schedule, timeZone)
              == if timeZone.GetOr("") == "" then "TZ=UTC " + schedule else "TZ=" + timeZone.value + " " + schedule
  {
    if HasPrefix(schedule, "TZ=") {
      assert schedule == "TZ=" + schedule[3..];
    } else if HasPrefix(schedule, "CRON_TZ=") {
      assert schedule == "CRON_TZ=" + schedule[8..];
    } else {
      assert "TZ=" + "UTC" + " " == "TZ=UTC ";
    }
  }

  /** The window is no longer than any of the 999 sampled gaps, nor than any duration there is. */
  ghost predicate FitsEveryGap(next: Schedule, ref: int, window: int) {
    window <= 9_223_372_036 && forall i :: 0 <= i < 999 ==> window <= Gap(next, ref, i)
  }

  method ValidateSpec(parse: string -> Option<Schedule>, ref: int, schedule: string, timeZone: Option<string>,
                      estimatedDuration: int, scheduleWindow: int) returns (v: Verdict)
    requires forall s :: parse(s).Some? ==> IsSchedule(parse(s).value)
    ensures v.Accepted?
            <==> estimatedDuration <= scheduleWindow
                 && (scheduleWindow == 0
                     || (schedule != "" && parse(ScheduleText(schedule, timeZone)).Some?
                         && FitsEveryGap(parse(ScheduleText(schedule, timeZone)).value, ref, scheduleWindow)))
    ensures v.DurationExceedsWindow? <==> estimatedDuration > scheduleWindow
    ensures v.EmptySchedule? <==> 0 != scheduleWindow >= estimatedDuration && schedule == ""
    ensures v.InvalidSchedule?
            <==> 0 != scheduleWindow >= estimatedDuration && schedule != ""
                 && parse(ScheduleText(schedule, timeZone)).None?
    ensures v.WindowExceedsInterval?
            <==> 0 != scheduleWindow >= estimatedDuration && schedule != ""
                 && parse(ScheduleText(schedule, timeZone)).Some?
                 && !FitsEveryGap(parse(ScheduleText(schedule, timeZone)).value, ref, scheduleWindow)
  {
    if estimatedDuration > scheduleWindow {
      return DurationExceedsWindow;
    }
    if scheduleWindow == 0 {
      return Accepted;
    }
    if schedule == "" {
      return EmptySchedule;
    }
    var sched := parse(ScheduleText(schedule, timeZone));
    if sched.None? {
      return InvalidSchedule;
    }
    var minInterval := MinimumCronInterval(sched.value, ref);
    if scheduleWindow > minInterval {
      return WindowExceedsInterval;
    }
    return Accepted;
  }

  /** Serving occurrence c at instant t leaves its direct successor next exactly when t comes before that successor. */
  lemma SuccessorIsNextIff(next: Schedule, c: int, t: int)
    requires IsSchedule(next) && c <= t
    ensures next(t) == next(c) <==> t < next(c)
  {
  }

  /** A window admitted by the webhook closes no later than the next firing, for every firing after the reference. */
  lemma AdmittedWindowEndsInTime(next: Schedule, ref: int, p: nat, window: int, c: int)
    requires IsSchedule(next) && 0 < p <= SAMPLES - 1 && Repeats(next, ref, p) && c > ref && Fires(next, c)
    requires forall i :: 0 <= i < SAMPLES - 1 ==> window <= Gap(next, ref, i)
    ensures c + window <= next(c)
  {
    var i := FiringIsNth(next, ref, c);
    SampleBoundsAllGaps(next, ref, p, window, i);
    assert Nth(next, ref, i + 1) == next(c);
  }
}
