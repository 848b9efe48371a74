/**
 * What one reconcile of a cron job decides, stated over the stored status, the jobs and the inputs: when it dispatches,
 * skips, plans, waits or gives up for a while, and that suspension stops all of it.
 */
module Decisions {
  import opened Options
  import opened Names
  import opened Prices
  import opened Cron
  import opened History
  import opened Scheduler
  import opened OneJob

  lemma OnlyOldJobs(jobs: seq<Job>, names: set<string>)
    ensures forall job :: job in Without(jobs, names) ==> job in jobs
  {
    forall job | job in Without(jobs, names)
      ensures job in jobs
    {
      WithoutMembers(jobs, names, job);
    }
  }

  /** A suspended cron job starts nothing, uses up no occurrence, forgets its plan and asks for no further reconcile. */
  lemma SuspendedDoesNothing(spec: Spec, s: State, input: Input, f: Fate)
    requires IsShortHash(spec.hash) && input.suspend
    ensures var d := Reconcile(spec, s, input, f);
            && d.event.Quiet?
            && (forall job :: job in d.state.jobs ==> job in s.jobs)
            && LastRun(spec, d.state.status) == LastRun(spec, s.status)
            && d.state.status.nextCronWindow == s.status.nextCronWindow
            && (f.synced && f.stored ==> d.state.status.nextScheduledTime.None? && d.requeue.Done?)
            && (!(f.synced && f.stored) ==> d.state.status == s.status && d.requeue.Failed?)
  {
    OnlyOldJobs(s.jobs, f.pruned);
  }

  // ---- The conditions ----

  /** The occurrence to serve comes after this: the last run, or the creation while there was none. */
  ghost function Since(spec: Spec, s: State): int {
    if s.status.lastScheduleTime.Some? then s.status.lastScheduleTime.value else spec.creation
  }

  /** No time is stored, and occurrence c is the one to serve and has come. */
  ghost predicate Due(spec: Spec, s: State, input: Input, c: int) {
    && s.status.nextScheduledTime.None? && spec.schedule.Some? && c <= input.now
    && NextSchedule(spec.schedule.value, Since(spec, s), input.now, spec.deadline) == Some(c)
  }

  /** A job still runs and must not be joined by another. */
  ghost predicate Blocked(spec: Spec, s: State) {
    spec.policy == Forbid && exists job :: job in s.jobs && Unfinished(job)
  }

  /** The prices say that t is the start to choose in the window of occurrence c. */
  ghost predicate BestStart(spec: Spec, c: int, input: Input, t: int) {
    && input.prices.Read? && spec.strategy in {"", "LowestPrice", "HighestPrice"}
    && StartsBest(InWindow(input.prices.prices, c, c + spec.window), spec.strategy == "HighestPrice", spec.duration,
                  c + spec.window, t)
  }

  /** A best point of w starts at t. */
  ghost predicate StartsBest(w: seq<PricePoint>, highest: bool, dur: int, end: int, t: int) {
    exists i: nat :: IsBest(w, highest, dur, end, i) && w[i].at == t
  }

  lemma BlockedIff(spec: Spec, s: State)
    ensures Blocked(spec, s) <==> spec.policy == Forbid && Active(s.jobs) != []
  {
    if Active(s.jobs) == [] {
      NoActiveNoneRunning(s.jobs);
    } else {
      ActiveIff(s.jobs, Active(s.jobs)[0]);
    }
  }

  lemma ChoiceIff(w: seq<PricePoint>, strategy: string, dur: int, end: int, i: nat)
    ensures Choice(w, strategy, dur, end) == Some(i)
            <==> strategy in {"", "LowestPrice", "HighestPrice"} && IsBest(w, strategy == "HighestPrice", dur, end, i)
  {
    if strategy in {"", "LowestPrice", "HighestPrice"} && IsBest(w, strategy == "HighestPrice", dur, end, i) {
      var choice := Choice(w, strategy, dur, end);
      BestIsUnique(w, strategy == "HighestPrice", dur, end, choice.value, i);
    }
  }

  /** The start the planning part works with, when it gets that far. */
  ghost function ChosenStart(spec: Spec, c: int, input: Input): Option<int> {
    if !input.prices.Read? then None
    else
      ChosenOf(InWindow(input.prices.prices, c, c + spec.window), spec.strategy, spec.duration, c + spec.window)
  }

  ghost function ChosenOf(w: seq<PricePoint>, strategy: string, dur: int, end: int): Option<int> {
    var choice := Choice(w, strategy, dur, end);
    if choice.None? || choice.value >= |w| then None else Some(w[choice.value].at)
  }

  lemma ChosenOfIff(w: seq<PricePoint>, strategy: string, dur: int, end: int, t: int)
    ensures ChosenOf(w, strategy, dur, end) == Some(t)
            <==> strategy in {"", "LowestPrice", "HighestPrice"}
                 && StartsBest(w, strategy == "HighestPrice", dur, end, t)
  {
    var choice := Choice(w, strategy, dur, end);
    if choice.Some? {
      ChoiceIff(w, strategy, dur, end, choice.value);
    }
    if strategy in {"", "LowestPrice", "HighestPrice"} && StartsBest(w, strategy == "HighestPrice", dur, end, t) {
      var i: nat :| IsBest(w, strategy == "HighestPrice", dur, end, i) && w[i].at == t;
      ChoiceIff(w, strategy, dur, end, i);
    }
  }

  lemma ChosenStartIff(spec: Spec, c: int, input: Input, t: int)
    ensures ChosenStart(spec, c, input) == Some(t) <==> BestStart(spec, c, input, t)
  {
    if input.prices.Read? {
      ChosenOfIff(InWindow(input.prices.prices, c, c + spec.window), spec.strategy, spec.duration, c + spec.window, t);
    }
  }

  // ---- What follows for an occurrence that is due ----

  /** The planning part, over the start the prices say. */
  lemma PlanDecides(spec: Spec, s: State, mem: Status, jobs: seq<Job>, c: int, input: Input, f: Fate)
    requires IsShortHash(spec.hash) && c <= input.now && AllThrough(f, |mem.active|)
    ensures var d, start := Plan(spec, s, mem, jobs, c, input, f), ChosenStart(spec, c, input);
            if spec.policy == Forbid && mem.active != [] then
              d == Step(State(mem.(lastScheduleTime := Some(input.now)), jobs), Done, Skipped(c, input.now))
            else if spec.window == 0 || (start.Some? && start.value <= input.now) then
              d == Dispatch(spec, s, mem, jobs, input.now, c, input.now, f) && d.event.Dispatched?
            else if start.Some? then
              d == Step(State(mem.(nextCronWindow := Some(c), nextScheduledTime := start), jobs),
                        After(start.value - input.later), Quiet)
            else if input.prices.ReadFailed? then d == Step(State(s.status, jobs), Failed, Quiet)
            else d == Step(State(mem, jobs), After(15 * 60), Quiet)
  {
    if input.prices.Read? {
      var w := InWindow(input.prices.prices, c, c + spec.window);
      if w == [] {
        NothingChosen(spec.strategy, spec.duration, c + spec.window);
      }
    }
  }

  lemma NothingChosen(strategy: string, dur: int, end: int)
    ensures Choice([], strategy, dur, end).None?
  {
    var choice := Choice([], strategy, dur, end);
    if choice.Some? {
      ChoiceIff([], strategy, dur, end, choice.value);
    }
  }

  // ---- The decisions of a reconcile from which no call was refused ----

  /**
   * It dispatches if and only if it is not suspended and a stored time has come, or an occurrence is due that no
   * running job blocks and there is no window to choose in or the start to choose has passed.
   */
  lemma DispatchIff(spec: Spec, s: State, input: Input, f: Fate)
    requires ValidSpec(spec) && AllSucceed(s, f)
    ensures var d, stored := Reconcile(spec, s, input, f), s.status.nextScheduledTime;
            d.event.Dispatched? <==>
            && !input.suspend
            && ((stored.Some? && stored.value <= input.now)
                || exists c :: Due(spec, s, input, c) && !Blocked(spec, s)
                               && (spec.window == 0 || exists t :: BestStart(spec, c, input, t) && t <= input.now))
  {
    BlockedIff(spec, s);
    if !input.suspend && s.status.nextScheduledTime.None? && spec.schedule.Some? {
      var c := NextSchedule(spec.schedule.value, Since(spec, s), input.now, spec.deadline);
      if c.Some? && c.value <= input.now {
        assert Due(spec, s, input, c.value);
        PlanDecides(spec, s, SyncedStatus(s.jobs, s.status), Without(s.jobs, f.pruned), c.value, input, f);
        StartIff(spec, c.value, input);
      }
    }
  }

  lemma StartIff(spec: Spec, c: int, input: Input)
    ensures forall t :: BestStart(spec, c, input, t) <==> ChosenStart(spec, c, input) == Some(t)
  {
    forall t
      ensures BestStart(spec, c, input, t) <==> ChosenStart(spec, c, input) == Some(t)
    {
      ChosenStartIff(spec, c, input, t);
    }
  }

  /**
   * A dispatch fires for the stored time, or else for now; it stores that, drops the plan and lists the job created.
   */
  lemma DispatchStores(spec: Spec, s: State, input: Input, f: Fate)
    requires ValidSpec(spec) && AllSucceed(s, f) && Reconcile(spec, s, input, f).event.Dispatched?
    ensures var d, at := Reconcile(spec, s, input, f), s.status.nextScheduledTime.GetOr(input.now);
            && d.event.at == at && d.requeue.AtOnce?
            && d.state.status == SyncedStatus(s.jobs, s.status).(
                 lastScheduleTime := Some(at), nextCronWindow := None, nextScheduledTime := None,
                 active := Active(s.jobs) + [JobName(spec.hash, spec.name, at)])
            && JobName(spec.hash, spec.name, at) in JobNames(d.state.jobs)
  {
    DispatchInstant(spec, s, input, f);
    var jobs := LeftToJoin(spec, s, f);
    var job := NewJob(spec, s.status.nextScheduledTime.GetOr(input.now), input.now);
    assert (jobs + [job])[..|jobs|] == jobs;
  }

  ghost function LeftToJoin(spec: Spec, s: State, f: Fate): seq<Job> {
    var jobs := Without(s.jobs, f.pruned);
    if spec.policy == Replace then Without(jobs, NameSet(Active(s.jobs))) else jobs
  }

  /** It skips an occurrence if and only if that is due and a running job forbids another. */
  lemma SkipIff(spec: Spec, s: State, input: Input, f: Fate)
    requires ValidSpec(spec) && AllSucceed(s, f)
    ensures var d := Reconcile(spec, s, input, f);
            && (d.event.Skipped? <==> !input.suspend && Blocked(spec, s) && exists c :: Due(spec, s, input, c))
            && (d.event.Skipped? ==>
                  && Due(spec, s, input, d.event.occurrence) && d.event.at == input.now && d.requeue.Done?
                  && d.state == State(SyncedStatus(s.jobs, s.status).(lastScheduleTime := Some(input.now)),
                                      Without(s.jobs, f.pruned)))
  {
    BlockedIff(spec, s);
    if !input.suspend && s.status.nextScheduledTime.None? && spec.schedule.Some? {
      var c := NextSchedule(spec.schedule.value, Since(spec, s), input.now, spec.deadline);
      if c.Some? && c.value <= input.now {
        assert Due(spec, s, input, c.value);
        PlanDecides(spec, s, SyncedStatus(s.jobs, s.status), Without(s.jobs, f.pruned), c.value, input, f);
      }
    }
  }

  /**
   * It plans time t for occurrence c if and only if c is due and not blocked and t is the start to choose and lies
   * ahead.
   */
  lemma PlanIff(spec: Spec, s: State, input: Input, f: Fate, c: int, t: int)
    requires ValidSpec(spec) && AllSucceed(s, f) && s.status.nextScheduledTime.None?
    ensures var d := Reconcile(spec, s, input, f).state.status;
            d.nextScheduledTime == Some(t) && d.nextCronWindow == Some(c) <==>
            && !input.suspend && Due(spec, s, input, c) && !Blocked(spec, s)
            && spec.window != 0 && BestStart(spec, c, input, t) && t > input.now
  {
    BlockedIff(spec, s);
    if !input.suspend && spec.schedule.Some? {
      var next := NextSchedule(spec.schedule.value, Since(spec, s), input.now, spec.deadline);
      if next.Some? && next.value <= input.now {
        assert Due(spec, s, input, next.value);
        PlanDecides(spec, s, SyncedStatus(s.jobs, s.status), Without(s.jobs, f.pruned), next.value, input, f);
        StartIff(spec, next.value, input);
      }
    }
  }

  /** While the next occurrence lies ahead, it is written down and waited for. */
  lemma WaitsForOccurrence(spec: Spec, s: State, input: Input, f: Fate, c: int)
    requires ValidSpec(spec) && AllSucceed(s, f) && !input.suspend && s.status.nextScheduledTime.None?
    requires spec.schedule.Some? && c > input.now
    requires NextSchedule(spec.schedule.value, Since(spec, s), input.now, spec.deadline) == Some(c)
    ensures Reconcile(spec, s, input, f)
            == Step(State(SyncedStatus(s.jobs, s.status).(nextCronWindow := Some(c)), Without(s.jobs, f.pruned)),
                    After(c - input.later), Quiet)
  {
  }

  /** So is a stored time that lies ahead. */
  lemma WaitsForStoredTime(spec: Spec, s: State, input: Input, f: Fate)
    requires ValidSpec(spec) && AllSucceed(s, f) && !input.suspend
    requires s.status.nextScheduledTime.Some? && s.status.nextScheduledTime.value > input.now
    ensures Reconcile(spec, s, input, f)
            == Step(State(SyncedStatus(s.jobs, s.status), Without(s.jobs, f.pruned)),
                    After(s.status.nextScheduledTime.value - input.later), Quiet)
  {
  }

  /**
   * There is nothing to go by: no readable schedule, no occurrence after too many missed ones, or no start to choose.
   */
  ghost predicate NothingToGoBy(spec: Spec, s: State, input: Input) {
    && s.status.nextScheduledTime.None?
    && (spec.schedule.None?
        || NextSchedule(spec.schedule.value, Since(spec, s), input.now, spec.deadline).None?
        || exists c :: Due(spec, s, input, c) && !Blocked(spec, s) && spec.window != 0 && !input.prices.ReadFailed?
                       && forall t :: !BestStart(spec, c, input, t))
  }

  /** Then the status is stored and the next try is a quarter of an hour later. */
  lemma TriesAgainLater(spec: Spec, s: State, input: Input, f: Fate)
    requires ValidSpec(spec) && AllSucceed(s, f) && !input.suspend && NothingToGoBy(spec, s, input)
    ensures Reconcile(spec, s, input, f)
            == Step(State(SyncedStatus(s.jobs, s.status), Without(s.jobs, f.pruned)), After(15 * 60), Quiet)
  {
    BlockedIff(spec, s);
    if spec.schedule.Some? {
      var c := NextSchedule(spec.schedule.value, Since(spec, s), input.now, spec.deadline);
      if c.Some? {
        PlanDecides(spec, s, SyncedStatus(s.jobs, s.status), Without(s.jobs, f.pruned), c.value, input, f);
        StartIff(spec, c.value, input);
      }
    }
  }

  /** A failed reconcile leaves the status as it was, whatever it has done to the jobs. */
  lemma FailureStoresNothing(spec: Spec, s: State, input: Input, f: Fate)
    requires ValidSpec(spec)
    ensures var d := Reconcile(spec, s, input, f);
            d.requeue.Failed? ==> d.state.status == s.status
  {
  }

  /** Without a refused call it fails if and only if the prices it needs cannot be read. */
  lemma FailsIff(spec: Spec, s: State, input: Input, f: Fate)
    requires ValidSpec(spec) && AllSucceed(s, f)
    ensures Reconcile(spec, s, input, f).requeue.Failed?
            <==> !input.suspend && input.prices.ReadFailed? && spec.window != 0 && !Blocked(spec, s)
                 && exists c :: Due(spec, s, input, c)
  {
    BlockedIff(spec, s);
    if !input.suspend && s.status.nextScheduledTime.None? && spec.schedule.Some? {
      var c := NextSchedule(spec.schedule.value, Since(spec, s), input.now, spec.deadline);
      if c.Some? && c.value <= input.now {
        assert Due(spec, s, input, c.value);
        PlanDecides(spec, s, SyncedStatus(s.jobs, s.status), Without(s.jobs, f.pruned), c.value, input, f);
      }
    }
  }
}
