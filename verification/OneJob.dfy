/** How many Jobs of one cron job can run at once, and what a retried dispatch may create. */
module OneJob {
  import opened Options
  import opened Text
  import opened Names
  import opened Cron
  import opened History
  import opened Scheduler
  import opened CronRuns

  /** No running job has another name than this one. */
  ghost predicate OnlyRunning(jobs: seq<Job>, name: string) {
    forall a :: a in jobs && Unfinished(a) ==> a.name == name
  }

  ghost predicate NoneRunning(jobs: seq<Job>) {
    forall a :: a in jobs ==> !Unfinished(a)
  }

  ghost predicate AtMostOneRunning(jobs: seq<Job>) {
    UniqueNames(jobs) && forall a, b :: a in jobs && b in jobs && Unfinished(a) && Unfinished(b) ==> a.name == b.name
  }

  /** At most one job runs, and under Forbid a stored time has only its own job running. */
  ghost predicate SingleOk(spec: Spec, s: State)
    requires IsShortHash(spec.hash)
  {
    && AtMostOneRunning(s.jobs)
    && (spec.policy == Forbid && s.status.nextScheduledTime.Some? ==>
          OnlyRunning(s.jobs, JobName(spec.hash, spec.name, s.status.nextScheduledTime.value)))
  }

  lemma {:induction false} ActiveIff(jobs: seq<Job>, name: string)
    ensures name in Active(jobs) <==> exists a :: a in jobs && Unfinished(a) && a.name == name
  {
    if jobs != [] {
      var n := |jobs| - 1;
      ActiveIff(jobs[..n], name);
      assert jobs == jobs[..n] + [jobs[n]];
    }
  }

  lemma NoActiveNoneRunning(jobs: seq<Job>)
    requires Active(jobs) == []
    ensures NoneRunning(jobs)
  {
    forall a | a in jobs
      ensures !Unfinished(a)
    {
      ActiveIff(jobs, a.name);
    }
  }

  /** Deleting jobs starts none. */
  lemma FewerRun(jobs: seq<Job>, names: set<string>)
    requires UniqueNames(jobs)
    ensures UniqueNames(Without(jobs, names))
    ensures forall a :: a in Without(jobs, names) ==> a in jobs && a.name !in names
  {
    WithoutUnique(jobs, names);
    forall a | a in Without(jobs, names)
      ensures a in jobs && a.name !in names
    {
      WithoutMembers(jobs, names, a);
    }
  }

  /** Deleting everything active leaves nothing running. */
  lemma ReplacedNoneRunning(jobs: seq<Job>, pruned: set<string>)
    requires UniqueNames(jobs)
    ensures NoneRunning(Without(Without(jobs, pruned), NameSet(Active(jobs))))
  {
    FewerRun(jobs, pruned);
    FewerRun(Without(jobs, pruned), NameSet(Active(jobs)));
    forall a | a in Without(Without(jobs, pruned), NameSet(Active(jobs)))
      ensures !Unfinished(a)
    {
      ActiveIff(jobs, a.name);
    }
  }

  lemma CreatingKeepsOne(jobs: seq<Job>, job: Job)
    requires UniqueNames(jobs) && OnlyRunning(jobs, job.name)
    ensures UniqueNames(WithJob(jobs, job)) && OnlyRunning(WithJob(jobs, job), job.name)
  {
    forall i | 0 <= i < |jobs| && job.name !in JobNames(jobs)
      ensures jobs[i].name != job.name
    {
      JobNamesIff(jobs, jobs[i].name);
    }
  }

  /** A dispatch that starts from nothing else running, or replaces what runs, ends with at most its own job running. */
  lemma DispatchKeepsSingle(spec: Spec, s: State, jobs: seq<Job>, pruned: set<string>, mem: Status, t: int, c: int,
                            now: int, f: Fate)
    requires ValidSpec(spec) && spec.policy != Allow && SingleOk(spec, s)
    requires jobs == Without(s.jobs, pruned) && mem.active == Active(s.jobs)
    requires spec.policy == Forbid ==> OnlyRunning(s.jobs, JobName(spec.hash, spec.name, t))
    requires s.status.nextScheduledTime.Some? ==> s.status.nextScheduledTime.value == t
    ensures SingleOk(spec, Dispatch(spec, s, mem, jobs, t, c, now, f).state)
  {
    FewerRun(s.jobs, pruned);
    if spec.policy == Replace && f.deleted < |mem.active| {
      FewerRun(jobs, NameSet(mem.active[..f.deleted]));
    } else {
      var left := if spec.policy == Replace then Without(jobs, NameSet(mem.active)) else jobs;
      if spec.policy == Replace {
        FewerRun(jobs, NameSet(mem.active));
        ReplacedNoneRunning(s.jobs, pruned);
      }
      CreatingKeepsOne(left, NewJob(spec, t, now));
    }
  }

  /**
   * The planning part either dispatches at once or leaves the jobs alone, and under Forbid plans only when nothing is
   * active.
   */
  lemma PlanShape(spec: Spec, s: State, mem: Status, jobs: seq<Job>, c: int, input: Input, f: Fate)
    requires ValidSpec(spec) && s.status.nextScheduledTime.None? && mem == SyncedStatus(s.jobs, s.status)
    ensures var d := Plan(spec, s, mem, jobs, c, input, f).state;
            (d == Dispatch(spec, s, mem, jobs, input.now, c, input.now, f).state
              && (spec.policy == Forbid ==> mem.active == []))
            || (d.jobs == jobs && (spec.policy == Forbid && d.status.nextScheduledTime.Some? ==> mem.active == []))
  {
  }

  lemma PlanKeepsSingle(spec: Spec, s: State, c: int, input: Input, f: Fate)
    requires ValidSpec(spec) && spec.policy != Allow && SingleOk(spec, s) && s.status.nextScheduledTime.None?
    ensures SingleOk(spec, Plan(spec, s, SyncedStatus(s.jobs, s.status), Without(s.jobs, f.pruned), c, input, f).state)
  {
    var mem, jobs := SyncedStatus(s.jobs, s.status), Without(s.jobs, f.pruned);
    PlanShape(spec, s, mem, jobs, c, input, f);
    ShapeKeepsSingle(spec, s, Plan(spec, s, mem, jobs, c, input, f).state, mem, c, input.now, f);
  }

  lemma ShapeKeepsSingle(spec: Spec, s: State, d: State, mem: Status, c: int, now: int, f: Fate)
    requires ValidSpec(spec) && spec.policy != Allow && SingleOk(spec, s) && s.status.nextScheduledTime.None?
    requires mem.active == Active(s.jobs)
    requires var jobs := Without(s.jobs, f.pruned);
             (d == Dispatch(spec, s, mem, jobs, now, c, now, f).state && (spec.policy == Forbid ==> mem.active == []))
             || (d.jobs == jobs && (spec.policy == Forbid && d.status.nextScheduledTime.Some? ==> mem.active == []))
    ensures SingleOk(spec, d)
  {
    var jobs := Without(s.jobs, f.pruned);
    FewerRun(s.jobs, f.pruned);
    if mem.active == [] {
      NoActiveNoneRunning(s.jobs);
    }
    if d != State(d.status, jobs) {
      DispatchKeepsSingle(spec, s, jobs, f.pruned, mem, now, c, now, f);
    }
  }

  lemma ReconcileKeepsSingle(spec: Spec, s: State, input: Input, f: Fate)
    requires ValidSpec(spec) && spec.policy != Allow && SingleOk(spec, s)
    ensures SingleOk(spec, Reconcile(spec, s, input, f).state)
  {
    var mem, jobs := SyncedStatus(s.jobs, s.status), Without(s.jobs, f.pruned);
    FewerRun(s.jobs, f.pruned);
    if s.status.nextScheduledTime.Some? {
      var t := s.status.nextScheduledTime.value;
      DispatchKeepsSingle(spec, s, jobs, f.pruned, mem, t, s.status.nextCronWindow.GetOr(t), input.now, f);
    } else if spec.schedule.Some? {
      var c := NextSchedule(spec.schedule.value, LastRun(spec, s.status), input.now, spec.deadline);
      if c.Some? {
        PlanKeepsSingle(spec, s, c.value, input, f);
      }
    }
  }

  /**
   * Under Forbid and under Replace no run ever has two unfinished Jobs, although a stored time is dispatched without
   * looking again and any call may fail.
   */
  lemma {:induction false} NeverTwoRunning(spec: Spec, moves: seq<Move>)
    requires ValidSpec(spec) && spec.policy != Allow && ValidRun(spec, FRESH, moves)
    ensures SingleOk(spec, RunTo(spec, FRESH, moves))
  {
    if moves != [] {
      var n := |moves| - 1;
      NeverTwoRunning(spec, moves[..n]);
      if moves[n].Reconciled? {
        ReconcileKeepsSingle(spec, RunTo(spec, FRESH, moves[..n]), moves[n].input, moves[n].fate);
      }
    }
  }

  // ---- Retries ----

  ghost predicate NothingStored(moves: seq<Move>) {
    forall i :: 0 <= i < |moves| && moves[i].Reconciled? ==> !moves[i].fate.stored
  }

  lemma {:induction false} WithoutNames(jobs: seq<Job>, names: set<string>)
    ensures JobNames(Without(jobs, names)) <= JobNames(jobs)
  {
    if jobs != [] {
      WithoutNames(jobs[..|jobs| - 1], names);
    }
  }

  lemma DispatchUsesOneName(spec: Spec, s: State, mem: Status, jobs: seq<Job>, t: int, c: int, now: int, f: Fate)
    requires ValidSpec(spec) && !f.stored
    ensures var d := Dispatch(spec, s, mem, jobs, t, c, now, f).state;
            d.status == s.status && JobNames(d.jobs) <= JobNames(jobs) + {JobName(spec.hash, spec.name, t)}
  {
    if f.deleted < |mem.active| {
      WithoutNames(jobs, NameSet(mem.active[..f.deleted]));
    }
    WithoutNames(jobs, NameSet(mem.active));
    var left := if spec.policy == Replace then Without(jobs, NameSet(mem.active)) else jobs;
    var job := NewJob(spec, t, now);
    assert (left + [job])[..|left|] == left;
    assert JobNames(left + [job]) == JobNames(left) + {job.name};
  }

  lemma ReconcileUsesOneName(spec: Spec, s: State, t: int, input: Input, f: Fate)
    requires ValidSpec(spec) && s.status.nextScheduledTime == Some(t) && !f.stored
    ensures var d := Reconcile(spec, s, input, f).state;
            d.status == s.status && JobNames(d.jobs) <= JobNames(s.jobs) + {JobName(spec.hash, spec.name, t)}
  {
    var mem, jobs := SyncedStatus(s.jobs, s.status), Without(s.jobs, f.pruned);
    WithoutNames(s.jobs, f.pruned);
    DispatchUsesOneName(spec, s, mem, jobs, t, s.status.nextCronWindow.GetOr(t), input.now, f);
  }

  lemma ProgressAddsNoName(before: seq<Job>, after: seq<Job>)
    requires JobsProgress(before, after)
    ensures JobNames(after) <= JobNames(before)
  {
    forall name | name in JobNames(after)
      ensures name in JobNames(before)
    {
      JobNamesIff(after, name);
      JobNamesIff(before, name);
      var i :| 0 <= i < |after| && after[i].name == name;
      assert after[i] in after;
      var a :| a in before && a.name == name;
      var j :| 0 <= j < |before| && before[j] == a;
    }
  }

  /**
   * However often a stored-time dispatch is retried because its status could not be stored, only one Job name is ever
   * used.
   */
  lemma {:induction false} RetriesUseOneName(spec: Spec, s: State, t: int, moves: seq<Move>)
    requires ValidSpec(spec) && s.status.nextScheduledTime == Some(t) && ValidRun(spec, s, moves)
    requires NothingStored(moves)
    ensures RunTo(spec, s, moves).status == s.status
    ensures JobNames(RunTo(spec, s, moves).jobs) <= JobNames(s.jobs) + {JobName(spec.hash, spec.name, t)}
  {
    if moves != [] {
      var n := |moves| - 1;
      RetriesUseOneName(spec, s, t, moves[..n]);
      var d := RunTo(spec, s, moves[..n]);
      match moves[n] {
        case Reconciled(input, f) => ReconcileUsesOneName(spec, d, t, input, f);
        case Progressed(jobs) => ProgressAddsNoName(d.jobs, jobs);
      }
    }
  }

  /**
   * The paths that fire at once name their Job after the clock. A dispatch repeated because its status was not
   * stored reuses the name exactly when the time was a stored one or the clock has not moved on.
   */
  lemma RetryReusesNameIff(spec: Spec, s: State, jobs: seq<Job>, in1: Input, f1: Fate, in2: Input, f2: Fate)
    requires ValidSpec(spec) && !f1.stored && 0 <= in1.now <= MAX_INT64 && 0 <= in2.now <= MAX_INT64
    requires Reconcile(spec, s, in1, f1).event.Dispatched?
    requires Reconcile(spec, State(Reconcile(spec, s, in1, f1).state.status, jobs), in2, f2).event.Dispatched?
    ensures var at1 := Reconcile(spec, s, in1, f1).event.at;
            var at2 := Reconcile(spec, State(Reconcile(spec, s, in1, f1).state.status, jobs), in2, f2).event.at;
            JobName(spec.hash, spec.name, at1) == JobName(spec.hash, spec.name, at2)
            <==> s.status.nextScheduledTime.Some? || in1.now == in2.now
  {
    DispatchInstant(spec, s, in1, f1);
    DispatchInstant(spec, State(s.status, jobs), in2, f2);
    if s.status.nextScheduledTime.None? {
      JobNamesDistinct(spec.hash, spec.name, in1.now, in2.now);
    }
  }

  lemma DispatchInstant(spec: Spec, s: State, input: Input, f: Fate)
    requires ValidSpec(spec) && Reconcile(spec, s, input, f).event.Dispatched?
    ensures Reconcile(spec, s, input, f).event.at == s.status.nextScheduledTime.GetOr(input.now)
    ensures !f.stored ==> Reconcile(spec, s, input, f).state.status == s.status
  {
  }

  const UNSTORED := Fate(true, {}, 0, true, false)

  /** Reconciles a second apart, each of which dispatches and fails to store its status. */
  function Retries(c: int, n: nat): (moves: seq<Move>)
    ensures |moves| == n
  {
    seq(n, i => Reconciled(Input(c + i, c + i, false, SourceMissing), UNSTORED))
  }

  /** The jobs those leave. */
  ghost function Pile(spec: Spec, c: int, n: nat): (jobs: seq<Job>)
    requires IsShortHash(spec.hash)
    ensures |jobs| == n && forall i :: 0 <= i < n ==> jobs[i] == NewJob(spec, c + i, c + i)
  {
    seq(n, i => NewJob(spec, c + i, c + i))
  }

  lemma {:induction false} PileLacks(spec: Spec, c: int, n: nat, t: int)
    requires IsShortHash(spec.hash) && 0 <= c && c + n <= t <= MAX_INT64
    ensures JobName(spec.hash, spec.name, t) !in JobNames(Pile(spec, c, n))
  {
    if n > 0 {
      PileLacks(spec, c, n - 1, t);
      assert Pile(spec, c, n)[..n - 1] == Pile(spec, c, n - 1);
      JobNamesDistinct(spec.hash, spec.name, c + n - 1, t);
    }
  }

  /** From a fresh status and with nothing to prune, a due occurrence is dispatched and stays unserved. */
  lemma UnstoredDispatch(spec: Spec, jobs: seq<Job>, c: int, input: Input)
    requires IsShortHash(spec.hash) && spec.policy == Allow && spec.window == 0 && spec.deadline.None?
    requires spec.schedule.Some? && c == spec.schedule.value(spec.creation) && c <= input.now && !input.suspend
    requires Without(jobs, {}) == jobs
    ensures Reconcile(spec, State(FRESH.status, jobs), input, UNSTORED)
            == Step(State(FRESH.status, WithJob(jobs, NewJob(spec, input.now, input.now))), Failed,
                    Dispatched(c, input.now))
  {
  }

  lemma OneMoreOnThePile(spec: Spec, n: nat)
    requires ValidSpec(spec) && spec.policy == Allow && spec.window == 0 && spec.deadline.None? && spec.schedule.Some?
    requires var c := spec.schedule.value(spec.creation); 0 <= c && c + n <= MAX_INT64
    ensures var c := spec.schedule.value(spec.creation);
            Reconcile(spec, State(FRESH.status, Pile(spec, c, n)), Input(c + n, c + n, false, SourceMissing), UNSTORED)
            == Step(State(FRESH.status, Pile(spec, c, n + 1)), Failed, Dispatched(c, c + n))
  {
    var c := spec.schedule.value(spec.creation);
    PileGrows(spec, c, n);
    WithoutNone(Pile(spec, c, n));
    UnstoredDispatch(spec, Pile(spec, c, n), c, Input(c + n, c + n, false, SourceMissing));
  }

  lemma PileGrows(spec: Spec, c: int, n: nat)
    requires IsShortHash(spec.hash) && 0 <= c && c + n <= MAX_INT64
    ensures WithJob(Pile(spec, c, n), NewJob(spec, c + n, c + n)) == Pile(spec, c, n + 1)
  {
    PileLacks(spec, c, n, c + n);
    assert Pile(spec, c, n) + [NewJob(spec, c + n, c + n)] == Pile(spec, c, n + 1);
  }

  lemma {:induction false} RetriesRun(spec: Spec, c: int, n: nat)
    requires ValidSpec(spec) && spec.policy == Allow && spec.window == 0 && spec.deadline.None? && spec.schedule.Some?
    requires c == spec.schedule.value(spec.creation) && 0 <= c && c + n <= MAX_INT64
    ensures RunTo(spec, FRESH, Retries(c, n)) == State(FRESH.status, Pile(spec, c, n))
    ensures ValidRun(spec, FRESH, Retries(c, n))
  {
    if n > 0 {
      RetriesRun(spec, c, n - 1);
      OneMoreRetry(spec, n - 1);
      RetriesGrow(c, n);
    }
  }

  /**
   * Under Allow such retries pile up: from a fresh cron job, n reconciles whose status patch fails leave n running Jobs
   * of different names, all for the same occurrence.
   */
  lemma RetriesPileUp(spec: Spec, n: nat)
    requires ValidSpec(spec) && spec.policy == Allow && spec.window == 0 && spec.deadline.None? && spec.schedule.Some?
    requires var c := spec.schedule.value(spec.creation); 0 <= c && c + n <= MAX_INT64
    ensures var c := spec.schedule.value(spec.creation);
            && RunTo(spec, FRESH, Retries(c, n)) == State(FRESH.status, Pile(spec, c, n))
            && ValidRun(spec, FRESH, Retries(c, n))
            && forall i :: 0 <= i < n ==> Unfinished(Pile(spec, c, n)[i])
  {
    RetriesRun(spec, spec.schedule.value(spec.creation), n);
  }

  lemma OneMoreRetry(spec: Spec, n: nat)
    requires ValidSpec(spec) && spec.policy == Allow && spec.window == 0 && spec.deadline.None? && spec.schedule.Some?
    requires var c := spec.schedule.value(spec.creation); 0 <= c && c + n <= MAX_INT64
    ensures var c := spec.schedule.value(spec.creation);
            var s, m := State(FRESH.status, Pile(spec, c, n)),
                        Reconciled(Input(c + n, c + n, false, SourceMissing), UNSTORED);
            Advance(spec, s, m) == State(FRESH.status, Pile(spec, c, n + 1)) && ValidMove(s, m)
  {
    OneMoreOnThePile(spec, n);
  }

  lemma RetriesGrow(c: int, n: nat)
    requires n > 0
    ensures Retries(c, n)[..n - 1] == Retries(c, n - 1)
    ensures Retries(c, n)[n - 1] == Reconciled(Input(c + n - 1, c + n - 1, false, SourceMissing), UNSTORED)
  {
  }

  /** Every one of them serves the one occurrence. */
  lemma RetriesServeOne(spec: Spec, n: nat, i: nat)
    requires ValidSpec(spec) && spec.policy == Allow && spec.window == 0 && spec.deadline.None? && spec.schedule.Some?
    requires var c := spec.schedule.value(spec.creation); 0 <= c && c + n <= MAX_INT64
    requires i < n
    ensures var c := spec.schedule.value(spec.creation);
            EventAt(spec, Retries(c, n), i) == Dispatched(c, c + i)
  {
    var c := spec.schedule.value(spec.creation);
    RetriesPileUp(spec, i);
    OneMoreOnThePile(spec, i);
    assert Retries(c, n)[..i] == Retries(c, i);
  }

  /** And all their names differ. */
  lemma PileNamesDiffer(spec: Spec, c: int, n: nat)
    requires IsShortHash(spec.hash) && 0 <= c && c + n <= MAX_INT64
    ensures UniqueNames(Pile(spec, c, n))
  {
    forall i, j | 0 <= i < j < n
      ensures Pile(spec, c, n)[i].name != Pile(spec, c, n)[j].name
    {
      JobNamesDistinct(spec.hash, spec.name, c + i, c + j);
    }
  }

  // ---- What the status says ----

  /** Pruning finished jobs does not change which run. */
  lemma {:induction false} ActiveSurvivesPruning(jobs: seq<Job>, pruned: set<string>)
    requires OnlyFinished(jobs, pruned)
    ensures Active(Without(jobs, pruned)) == Active(jobs)
  {
    if jobs != [] {
      var n := |jobs| - 1;
      ActiveSurvivesPruning(jobs[..n], pruned);
      if jobs[n].name !in pruned {
        var w := Without(jobs[..n], pruned);
        assert (w + [jobs[n]])[..|w|] == w;
      }
    }
  }

  /** A reconcile that stores its status without dispatching lists exactly the jobs that run. */
  lemma StoredStatusIsExact(spec: Spec, s: State, input: Input, f: Fate)
    requires ValidSpec(spec) && f.synced && f.stored && OnlyFinished(s.jobs, f.pruned)
    requires !Reconcile(spec, s, input, f).event.Dispatched? && !Reconcile(spec, s, input, f).requeue.Failed?
    ensures var d := Reconcile(spec, s, input, f);
            && d.state.status.active == Active(d.state.jobs)
            && d.state.status.lastSuccessfulTime == LastSuccess(s.jobs, s.status.lastSuccessfulTime)
  {
    ActiveSurvivesPruning(s.jobs, f.pruned);
    var mem, jobs := SyncedStatus(s.jobs, s.status), Without(s.jobs, f.pruned);
    if !input.suspend && s.status.nextScheduledTime.None? && spec.schedule.Some? {
      var c := NextSchedule(spec.schedule.value, LastRun(spec, s.status), input.now, spec.deadline);
      if c.Some? {
        PlanListsSynced(spec, s, mem, jobs, c.value, input, f);
      }
    }
  }

  lemma PlanListsSynced(spec: Spec, s: State, mem: Status, jobs: seq<Job>, c: int, input: Input, f: Fate)
    requires IsShortHash(spec.hash)
    ensures var d := Plan(spec, s, mem, jobs, c, input, f);
            d.event.Dispatched? || d.requeue.Failed?
            || (d.state.jobs == jobs && d.state.status.active == mem.active
                && d.state.status.lastSuccessfulTime == mem.lastSuccessfulTime)
  {
  }

  // ---- When the controller looks again ----

  /** Nothing brings the cron job back: no pause, no failure to retry, and no change that would be an event. */
  predicate LeftAlone(s: State, d: Step) {
    d.state == s && (d.requeue.Done? || (d.requeue.After? && d.requeue.seconds <= 0))
  }

  /** The reconcile had nothing to write: its history was synced already and no finished job was pruned. */
  ghost predicate NothingToWrite(s: State, f: Fate) {
    f.synced && f.stored && SyncedStatus(s.jobs, s.status) == s.status && Without(s.jobs, f.pruned) == s.jobs
  }

  /**
   * The pause is worked out on a clock read after the status patch and is not checked to be positive. So a reconcile
   * that waits for a stored time t is left alone, and the firing waits for an unrelated event, if and only if it had
   * nothing to write and its patch was done at t or later. Otherwise, when it is stored, the cron job comes back at t
   * itself or is brought back by its own change.
   */
  lemma FiringLostIff(spec: Spec, s: State, input: Input, f: Fate, t: int)
    requires ValidSpec(spec) && s.status.nextScheduledTime == Some(t) && input.now < t && !input.suspend
    ensures var d := Reconcile(spec, s, input, f);
            && d.event.Quiet?
            && (LeftAlone(s, d) <==> input.later >= t && NothingToWrite(s, f))
            && (f.synced && f.stored ==> (ComesBackAt(d.requeue, input.later, t) <==> input.later < t))
  {
  }

  /** The same while it waits for the next occurrence c, which is written down too. */
  lemma OccurrenceLostIff(spec: Spec, s: State, input: Input, f: Fate, c: int)
    requires ValidSpec(spec) && s.status.nextScheduledTime.None? && spec.schedule.Some? && !input.suspend
    requires input.now < c
    requires NextSchedule(spec.schedule.value, LastRun(spec, s.status), input.now, spec.deadline) == Some(c)
    ensures var d := Reconcile(spec, s, input, f);
            && d.event.Quiet?
            && (LeftAlone(s, d) <==> input.later >= c && NothingToWrite(s, f) && s.status.nextCronWindow == Some(c))
            && (f.synced && f.stored ==> (ComesBackAt(d.requeue, input.later, c) <==> input.later < c))
  {
    var mem := SyncedStatus(s.jobs, s.status);
    assert mem.(nextCronWindow := Some(c)) == s.status <==> mem == s.status && s.status.nextCronWindow == Some(c);
  }

  /** So a slow patch loses the firing: nothing has been asked for and no event has been caused. */
  lemma SlowPatchLosesFiring(spec: Spec, s: State, t: int, late: int)
    requires ValidSpec(spec) && late >= 0
    requires s.status.nextScheduledTime == Some(t) && SyncedStatus(s.jobs, s.status) == s.status
    ensures LeftAlone(s, Reconcile(spec, s, Input(t - 1, t + late, false, SourceMissing), ALL_GOOD))
  {
    WithoutNone(s.jobs);
  }

  /** A time that has just been planned is never lost: storing it changes the status, and the change is an event. */
  lemma FreshPlanNeverLost(spec: Spec, s: State, input: Input, f: Fate)
    requires ValidSpec(spec) && s.status.nextScheduledTime.None?
    requires Reconcile(spec, s, input, f).state.status.nextScheduledTime.Some?
    ensures !LeftAlone(s, Reconcile(spec, s, input, f))
  {
  }
}
