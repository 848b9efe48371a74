/**
 * The energy-aware cron job as a state machine: one reconcile as a function of the stored objects, the inputs it
 * reads and the calls that succeed, and the reconciler that computes it
 * (internal/controller/energyawarecronjob_controller.go). Instants are Unix seconds.
 */
module Scheduler {
  import opened Options
  import opened Names
  import opened Prices
  import opened Cron
  import opened History

  datatype Policy = Allow | Forbid | Replace

  /** What does not change while a cron job runs; schedule is absent when its text does not parse. */
  datatype Spec = Spec(hash: string -> string, name: string, creation: int, schedule: Option<Schedule>,
                       policy: Policy, deadline: Option<int>, strategy: string, duration: int, window: int,
                       successLimit: Option<int>, failedLimit: Option<int>)

  ghost predicate ValidSpec(spec: Spec) {
    IsShortHash(spec.hash) && (spec.schedule.Some? ==> IsSchedule(spec.schedule.value))
  }

  datatype PriceRead = Read(prices: seq<PricePoint>) | SourceMissing | ReadFailed

  /** What one reconcile reads: the clock when it starts, and once more when its status patch is done. */
  datatype Input = Input(now: int, later: int, suspend: bool, prices: PriceRead)

  /**
   * Which calls of one reconcile succeed: whether history was synced and which finished jobs were deleted by then,
   * how many active jobs were deleted to be replaced, whether the Job was created and the status stored.
   */
  datatype Fate = Fate(synced: bool, pruned: set<string>, deleted: nat, created: bool, stored: bool)

  datatype State = State(status: Status, jobs: seq<Job>)

  /** How a reconcile asks to be called again; a pause that is not positive asks for nothing. */
  datatype Requeue = Done | After(seconds: int) | AtOnce | Failed

  /** The work queue brings the cron job back at instant t. */
  predicate ComesBackAt(r: Requeue, clock: int, t: int) {
    r.After? && r.seconds > 0 && clock + r.seconds == t
  }

  /** What a reconcile used up: nothing, or a cron occurrence, by a dispatch or by a skip at an instant. */
  datatype Event = Quiet | Dispatched(occurrence: int, at: int) | Skipped(occurrence: int, at: int)

  datatype Step = Step(state: State, requeue: Requeue, event: Event)

  const RETRY_SHORT := 900

  function LastRun(spec: Spec, status: Status): int {
    status.lastScheduleTime.GetOr(spec.creation)
  }

  /** Storing the status worked out in memory; jobs have changed either way. */
  function Store(s: State, mem: Status, jobs: seq<Job>, f: Fate, requeue: Requeue, event: Event): Step {
    if f.stored then Step(State(mem, jobs), requeue, event) else Step(State(s.status, jobs), Failed, event)
  }

  /** failWith records the error and tries again later. */
  function FailWith(s: State, mem: Status, jobs: seq<Job>, f: Fate): Step {
    Store(s, mem, jobs, f, After(RETRY_SHORT), Quiet)
  }

  function NameSet(names: seq<string>): set<string> {
    set x | x in names
  }

  function NewJob(spec: Spec, t: int, now: int): Job
    requires IsShortHash(spec.hash)
  {
    Job(JobName(spec.hash, spec.name, t), [], None, now, None)
  }

  /** dispatchJob for instant t, serving the given occurrence. */
  function Dispatch(spec: Spec, s: State, mem: Status, jobs: seq<Job>, t: int, occurrence: int, now: int, f: Fate): Step
    requires IsShortHash(spec.hash)
  {
    if spec.policy == Replace && f.deleted < |mem.active| then
      Step(State(s.status, Without(jobs, NameSet(mem.active[..f.deleted]))), Failed, Quiet)
    else
      var left := if spec.policy == Replace then Without(jobs, NameSet(mem.active)) else jobs;
      if !f.created then Step(State(s.status, left), Failed, Quiet)
      else
        Store(s, DispatchedStatus(spec, mem, t), WithJob(left, NewJob(spec, t, now)), f, AtOnce,
          Dispatched(occurrence, t))
  }

  function DispatchedStatus(spec: Spec, mem: Status, t: int): Status
    requires IsShortHash(spec.hash)
  {
    mem.(lastScheduleTime := Some(t), nextCronWindow := None, nextScheduledTime := None,
         active := mem.active + [JobName(spec.hash, spec.name, t)])
  }

  /** The one point SelectPricePoint can select, if any. */
  ghost function Choice(ps: seq<PricePoint>, strategy: string, dur: int, windowEnd: int): Option<nat> {
    if strategy !in {"", LOWEST_PRICE, HIGHEST_PRICE} then None
    else TheBest(ps, strategy == HIGHEST_PRICE, dur, windowEnd)
  }

  ghost function TheBest(ps: seq<PricePoint>, highest: bool, dur: int, windowEnd: int): Option<nat> {
    if i :| IsBest(ps, highest, dur, windowEnd, i) then Some(i) else None
  }

  /** One reconcile. */
  ghost function Reconcile(spec: Spec, s: State, input: Input, f: Fate): Step
    requires IsShortHash(spec.hash)
  {
    var mem, jobs := SyncedStatus(s.jobs, s.status), Without(s.jobs, f.pruned);
    if !f.synced then Step(State(s.status, jobs), Failed, Quiet)
    else if input.suspend then Store(s, mem.(nextScheduledTime := None), jobs, f, Done, Quiet)
    else if s.status.nextScheduledTime.Some? then
      var t := s.status.nextScheduledTime.value;
      if input.now >= t then Dispatch(spec, s, mem, jobs, t, s.status.nextCronWindow.GetOr(t), input.now, f)
      else Store(s, mem, jobs, f, After(t - input.later), Quiet)
    else if spec.schedule.None? then FailWith(s, mem, jobs, f)
    else
      var occurrence := NextSchedule(spec.schedule.value, LastRun(spec, s.status), input.now, spec.deadline);
      if occurrence.None? then FailWith(s, mem, jobs, f)
      else Plan(spec, s, mem, jobs, occurrence.value, input, f)
  }

  /** The part of a reconcile that has found the occurrence to serve. */
  ghost function Plan(spec: Spec, s: State, mem: Status, jobs: seq<Job>, c: int, input: Input, f: Fate): Step
    requires IsShortHash(spec.hash)
  {
    if c > input.now then Store(s, mem.(nextCronWindow := Some(c)), jobs, f, After(c - input.later), Quiet)
    else if spec.policy == Forbid && mem.active != [] then
      Store(s, mem.(lastScheduleTime := Some(input.now)), jobs, f, Done, Skipped(c, input.now))
    else if spec.window == 0 then Dispatch(spec, s, mem, jobs, input.now, c, input.now, f)
    else
      match input.prices
      case SourceMissing => FailWith(s, mem, jobs, f)
      case ReadFailed => Step(State(s.status, jobs), Failed, Quiet)
      case Read(prices) =>
        var w := InWindow(prices, c, c + spec.window);
        if w == [] then Store(s, mem, jobs, f, After(RETRY_SHORT), Quiet)
        else
          var choice := Choice(w, spec.strategy, spec.duration, c + spec.window);
          if choice.None? || choice.value >= |w| then FailWith(s, mem, jobs, f)
          else
            var t := w[choice.value].at;
            if t <= input.now then Dispatch(spec, s, mem, jobs, input.now, c, input.now, f)
            else
              Store(s, mem.(nextCronWindow := Some(c), nextScheduledTime := Some(t)), jobs, f,
                After(t - input.later), Quiet)
  }

  // ---- The reconciler ----

  function StateOf(api: CronJobObjects): State
    reads api
  {
    State(api.status, api.jobs)
  }

  const ALL_GOOD := Fate(true, {}, 0, true, true)

  /**
   * The calls of a reconcile from which nothing was refused: all active jobs deleted, the Job created, the status
   * stored.
   */
  predicate AllThrough(f: Fate, active: nat) {
    f.created && f.stored && f.deleted >= active
  }

  /** The same for a whole reconcile. */
  predicate AllSucceed(s: State, f: Fate) {
    f.synced && AllThrough(f, |Active(s.jobs)|)
  }

  method StoreStatus(api: CronJobObjects, mem: Status, requeue: Requeue) returns (r: Requeue, ghost stored: bool)
    modifies api
    ensures forall s: State, f: Fate, e: Event :: s.status == old(api.status) && f.stored == stored ==>
              Step(StateOf(api), r, e) == Store(s, mem, old(api.jobs), f, requeue, e)
    ensures api.refusals >= old(api.refusals) && (stored <==> api.refusals == old(api.refusals))
    ensures !stored ==> r.Failed?
  {
    var ok := api.PatchStatus(mem);
    r, stored := if ok then requeue else Failed, ok;
  }

  /** Replace: delete all active jobs, stopping at the first refusal. */
  method DeleteActive(api: CronJobObjects, active: seq<string>) returns (ok: bool, ghost deleted: nat)
    modifies api
    ensures deleted <= |active| && (ok <==> deleted == |active|)
    ensures api.refusals >= old(api.refusals) && (ok <==> api.refusals == old(api.refusals))
    ensures api.status == old(api.status) && api.jobs == Without(old(api.jobs), NameSet(active[..deleted]))
  {
    ok, deleted := true, 0;
    WithoutNone(api.jobs);
    assert NameSet(active[..0]) == {};
    for i := 0 to |active|
      invariant deleted == i && api.status == old(api.status) && ok && api.refusals == old(api.refusals)
      invariant api.jobs == Without(old(api.jobs), NameSet(active[..i]))
    {
      WithoutTwice(old(api.jobs), NameSet(active[..i]), {active[i]});
      assert NameSet(active[..i + 1]) == NameSet(active[..i]) + {active[i]};
      ok := api.Delete(active[i]);
      if !ok {
        return;
      }
      deleted := deleted + 1;
    }
  }

  method DispatchJob(api: CronJobObjects, spec: Spec, mem: Status, t: int, now: int, ghost occurrence: int,
                     ghost f0: Fate)
    returns (r: Requeue, ghost f: Fate, ghost e: Event)
    requires IsShortHash(spec.hash)
    requires AllThrough(f0, |mem.active|)
    modifies api
    ensures api.refusals >= old(api.refusals) && (api.refusals > old(api.refusals) ==> r.Failed?)
    ensures api.refusals == old(api.refusals) ==> AllThrough(f, |mem.active|)
    ensures f.synced == f0.synced && f.pruned == f0.pruned
    ensures forall s: State :: s.status == old(api.status) ==>
              Step(StateOf(api), r, e) == Dispatch(spec, s, mem, old(api.jobs), t, occurrence, now, f)
  {
    f, e := f0, Quiet;
    if spec.policy == Replace {
      var ok;
      ghost var deleted;
      ok, deleted := DeleteActive(api, mem.active);
      f := f0.(deleted := deleted);
      if !ok {
        r := Failed;
        return;
      }
      assert mem.active[..|mem.active|] == mem.active;
    }
    var job := NewJob(spec, t, now);
    var created := api.Create(job);
    f := f.(created := created);
    if !created {
      r := Failed;
      return;
    }
    ghost var stored;
    r, stored := StoreStatus(api, DispatchedStatus(spec, mem, t), AtOnce);
    f, e := f.(stored := stored), Dispatched(occurrence, t);
  }

  /** Pruning met both history limits. */
  ghost predicate HistoryKept(jobs: seq<Job>, pruned: set<string>, spec: Spec) {
    LimitsOk(spec.successLimit, spec.failedLimit)
    && Keeps(jobs, Without(jobs, pruned), true, spec.successLimit.GetOr(3))
    && Keeps(jobs, Without(jobs, pruned), false, spec.failedLimit.GetOr(1))
  }

  method ReconcileCronJob(api: CronJobObjects, spec: Spec, input: Input)
    returns (r: Requeue, ghost f: Fate, ghost e: Event)
    requires ValidSpec(spec) && UniqueNames(api.jobs)
    modifies api
    ensures OnlyFinished(old(api.jobs), f.pruned)
    ensures Step(StateOf(api), r, e) == Reconcile(spec, old(StateOf(api)), input, f)
    ensures !LimitsOk(spec.successLimit, spec.failedLimit) ==> r.Failed? && e.Quiet?
    ensures api.refusals >= old(api.refusals) && (api.refusals > old(api.refusals) ==> r.Failed?)
    ensures api.refusals == old(api.refusals) && LimitsOk(spec.successLimit, spec.failedLimit) ==>
              AllSucceed(old(StateOf(api)), f)
    ensures f.synced ==> HistoryKept(old(api.jobs), f.pruned, spec)
  {
    e := Quiet;
    var base := api.status;
    var mem, ok, panicked;
    ghost var pruned, stored;
    mem, ok, panicked, pruned := api.SyncActiveJobs(base, spec.successLimit, spec.failedLimit);
    f := Fate(ok, pruned, |mem.active|, true, true);
    if !ok {
      r := Failed;
      return;
    }
    if input.suspend {
      r, stored := StoreStatus(api, mem.(nextScheduledTime := None), Done);
      f := f.(stored := stored);
      return;
    }
    if mem.nextScheduledTime.Some? {
      var t := mem.nextScheduledTime.value;
      if !(input.now < t) {
        r, f, e := DispatchJob(api, spec, mem, t, input.now, base.nextCronWindow.GetOr(t), f);
        return;
      }
      r, stored := StoreStatus(api, mem, After(t - input.later));
      f := f.(stored := stored);
      return;
    }
    if spec.schedule.None? {
      r, stored := StoreStatus(api, mem, After(RETRY_SHORT));
      f := f.(stored := stored);
      return;
    }
    var nextCronTime := NextScheduleTime(spec.schedule.value, LastRun(spec, mem), input.now, spec.deadline);
    if nextCronTime.None? {
      r, stored := StoreStatus(api, mem, After(RETRY_SHORT));
      f := f.(stored := stored);
      return;
    }
    r, f, e := PlanOccurrence(api, spec, mem, nextCronTime.value, input, f);
  }

  method PlanOccurrence(api: CronJobObjects, spec: Spec, mem: Status, c: int, input: Input, ghost f0: Fate)
    returns (r: Requeue, ghost f: Fate, ghost e: Event)
    requires IsShortHash(spec.hash)
    requires AllThrough(f0, |mem.active|)
    modifies api
    ensures api.refusals >= old(api.refusals) && (api.refusals > old(api.refusals) ==> r.Failed?)
    ensures api.refusals == old(api.refusals) ==> AllThrough(f, |mem.active|)
    ensures f.synced == f0.synced && f.pruned == f0.pruned
    ensures forall s: State :: s.status == old(api.status) ==>
              Step(StateOf(api), r, e) == Plan(spec, s, mem, old(api.jobs), c, input, f)
  {
    f, e := f0, Quiet;
    ghost var stored;
    if c > input.now {
      r, stored := StoreStatus(api, mem.(nextCronWindow := Some(c)), After(c - input.later));
      f := f.(stored := stored);
      return;
    }
    if spec.policy == Forbid && |mem.active| > 0 {
      r, stored := StoreStatus(api, mem.(lastScheduleTime := Some(input.now)), Done);
      f, e := f.(stored := stored), Skipped(c, input.now);
      return;
    }
    if spec.window == 0 {
      r, f, e := DispatchJob(api, spec, mem, input.now, input.now, c, f);
      return;
    }
    if input.prices.SourceMissing? {
      r, stored := StoreStatus(api, mem, After(RETRY_SHORT));
      f := f.(stored := stored);
      return;
    }
    if input.prices.ReadFailed? {
      r := Failed;
      return;
    }
    r, f, e := PlanWithPrices(api, spec, mem, c, input, f);
  }

  method PlanWithPrices(api: CronJobObjects, spec: Spec, mem: Status, c: int, input: Input, ghost f0: Fate)
    returns (r: Requeue, ghost f: Fate, ghost e: Event)
    requires IsShortHash(spec.hash) && input.prices.Read? && spec.window != 0 && c <= input.now
    requires !(spec.policy == Forbid && mem.active != [])
    requires AllThrough(f0, |mem.active|)
    modifies api
    ensures api.refusals >= old(api.refusals) && (api.refusals > old(api.refusals) ==> r.Failed?)
    ensures api.refusals == old(api.refusals) ==> AllThrough(f, |mem.active|)
    ensures f.synced == f0.synced && f.pruned == f0.pruned
    ensures forall s: State :: s.status == old(api.status) ==>
              Step(StateOf(api), r, e) == Plan(spec, s, mem, old(api.jobs), c, input, f)
  {
    f, e := f0, Quiet;
    ghost var stored, index;
    var windowEnd := c + spec.window;
    var window := FilterPricesInWindow(input.prices.prices, c, windowEnd);
    if |window| == 0 {
      r, stored := StoreStatus(api, mem, After(RETRY_SHORT));
      f := f.(stored := stored);
      return;
    }
    var selected;
    selected, index := SelectPricePoint(window, spec.strategy, spec.duration, windowEnd);
    SelectedIsChoice(window, spec.strategy, spec.duration, windowEnd, selected, index);
    if !selected.Selected? {
      r, stored := StoreStatus(api, mem, After(RETRY_SHORT));
      f := f.(stored := stored);
      return;
    }
    var optimalTime := selected.point.at;
    if !(optimalTime > input.now) {
      r, f, e := DispatchJob(api, spec, mem, input.now, input.now, c, f);
      return;
    }
    r, stored := StoreStatus(api, mem.(nextCronWindow := Some(c), nextScheduledTime := Some(optimalTime)),
      After(optimalTime - input.later));
    f := f.(stored := stored);
  }

  /** SelectPricePoint's contract determines its answer. */
  lemma SelectedIsChoice(ps: seq<PricePoint>, strategy: string, dur: int, windowEnd: int, r: Selection, index: nat)
    requires ps != []
    requires !r.NoPrices? && (r.UnsupportedStrategy? <==> strategy !in {"", LOWEST_PRICE, HIGHEST_PRICE})
    requires r.NothingFits? ==> NoneScores(ps, dur, windowEnd)
    requires r.Selected? ==> IsBest(ps, strategy == HIGHEST_PRICE, dur, windowEnd, index) && r.point == ps[index]
    ensures Choice(ps, strategy, dur, windowEnd) == if r.Selected? then Some(index) else None
  {
    if r.Selected? {
      assert IsBest(ps, strategy == HIGHEST_PRICE, dur, windowEnd, index);
      var i := Choice(ps, strategy, dur, windowEnd);
      BestIsUnique(ps, strategy == HIGHEST_PRICE, dur, windowEnd, i.value, index);
    }
  }
}
