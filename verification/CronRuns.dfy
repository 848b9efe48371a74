/**
 * What holds over whole runs of one energy-aware cron job with a fixed spec: reconciles with any inputs and any
 * failures, in any number, while its Jobs progress, finish and disappear on their own. Suspension may toggle freely.
 */
module CronRuns {
  import opened Options
  import opened Text
  import opened Names
  import opened Prices
  import opened Cron
  import opened History
  import opened Scheduler

  datatype Move = Reconciled(input: Input, fate: Fate) | Progressed(jobs: seq<Job>)

  /** Jobs finish or disappear; none appears and none comes back to life. */
  ghost predicate JobsProgress(before: seq<Job>, after: seq<Job>) {
    UniqueNames(after)
    && forall b :: b in after ==> exists a :: a in before && a.name == b.name && (Unfinished(b) ==> Unfinished(a))
  }

  ghost predicate ValidMove(s: State, m: Move) {
    match m
    case Reconciled(_, f) => OnlyFinished(s.jobs, f.pruned)
    case Progressed(jobs) => JobsProgress(s.jobs, jobs)
  }

  ghost function Advance(spec: Spec, s: State, m: Move): State
    requires IsShortHash(spec.hash)
  {
    match m
    case Reconciled(input, f) => Reconcile(spec, s, input, f).state
    case Progressed(jobs) => s.(jobs := jobs)
  }

  ghost function EventOf(spec: Spec, s: State, m: Move): Event
    requires IsShortHash(spec.hash)
  {
    if m.Reconciled? then Reconcile(spec, s, m.input, m.fate).event else Quiet
  }

  ghost function RunTo(spec: Spec, s: State, moves: seq<Move>): State
    requires IsShortHash(spec.hash)
  {
    if moves == [] then s else Advance(spec, RunTo(spec, s, moves[..|moves| - 1]), moves[|moves| - 1])
  }

  ghost predicate ValidRun(spec: Spec, s: State, moves: seq<Move>)
    requires IsShortHash(spec.hash)
  {
    moves == [] ||
    (ValidRun(spec, s, moves[..|moves| - 1]) && ValidMove(RunTo(spec, s, moves[..|moves| - 1]), moves[|moves| - 1]))
  }

  /** A cron job as created. */
  const FRESH := State(Status([], None, None, None, None), [])

  // ---- The plan ----

  /**
   * A stored time lies in the window of the stored occurrence, and so does the whole run; the occurrence is still to be
   * served.
   */
  ghost predicate PlanOk(spec: Spec, status: Status) {
    status.nextScheduledTime.Some? ==>
      && spec.schedule.Some? && status.nextCronWindow.Some?
      && var t, c := status.nextScheduledTime.value, status.nextCronWindow.value;
      && c <= t < c + spec.window
      && t + spec.duration < c + spec.window
      && LastRun(spec, status) < c
      && Fires(spec.schedule.value, c)
  }

  lemma {:induction false} ReachedIsInWindow(w: seq<PricePoint>, i: nat, end: int, limit: int)
    requires i < |w| && Reaches(w, i, end) && forall k :: 0 <= k < |w| ==> w[k].at < limit
    ensures end < limit
    decreases |w| - i
  {
    if w[i + 1].at < end {
      ReachedIsInWindow(w, i + 1, end, limit);
    }
  }

  /** Whatever the order of the prices, a chosen start and its run lie strictly inside the window. */
  lemma ChoiceInWindow(ps: seq<PricePoint>, strategy: string, dur: int, c: int, length: int)
    requires var w := InWindow(ps, c, c + length); Choice(w, strategy, dur, c + length).Some?
    ensures var w := InWindow(ps, c, c + length);
            var i := Choice(w, strategy, dur, c + length).value;
            i < |w| && c <= w[i].at < c + length && w[i].at + dur < c + length
  {
    var w := InWindow(ps, c, c + length);
    var i := Choice(w, strategy, dur, c + length).value;
    assert IsBest(w, strategy == HIGHEST_PRICE, dur, c + length, i);
    if dur > 0 {
      ReachedIsInWindow(w, i, w[i].at + dur, c + length);
    }
  }

  /** Planning stores a time only for the occurrence at hand and only a point chosen from its window. */
  lemma PlannedTimeIsChosen(spec: Spec, s: State, mem: Status, jobs: seq<Job>, c: int, input: Input, f: Fate)
    requires ValidSpec(spec) && s.status.nextScheduledTime.None? && mem == SyncedStatus(s.jobs, s.status)
    ensures var d := Plan(spec, s, mem, jobs, c, input, f).state.status;
            d.nextScheduledTime.Some? ==>
              && input.prices.Read?
              && var w := InWindow(input.prices.prices, c, c + spec.window);
              && var choice := Choice(w, spec.strategy, spec.duration, c + spec.window);
              && choice.Some? && choice.value < |w|
              && d == mem.(nextCronWindow := Some(c), nextScheduledTime := Some(w[choice.value].at))
  {
  }

  lemma PlanOkAfterPlan(spec: Spec, s: State, mem: Status, jobs: seq<Job>, c: int, input: Input, f: Fate)
    requires ValidSpec(spec) && spec.schedule.Some? && s.status.nextScheduledTime.None?
    requires mem == SyncedStatus(s.jobs, s.status)
    requires c > LastRun(spec, s.status) && Fires(spec.schedule.value, c)
    ensures PlanOk(spec, Plan(spec, s, mem, jobs, c, input, f).state.status)
  {
    PlannedTimeIsChosen(spec, s, mem, jobs, c, input, f);
    var d := Plan(spec, s, mem, jobs, c, input, f).state.status;
    if d.nextScheduledTime.Some? {
      ChoiceInWindow(input.prices.prices, spec.strategy, spec.duration, c, spec.window);
    }
  }

  lemma PlanOkAfter(spec: Spec, s: State, m: Move)
    requires ValidSpec(spec) && PlanOk(spec, s.status)
    ensures PlanOk(spec, Advance(spec, s, m).status)
  {
    if m.Reconciled? && spec.schedule.Some? {
      NextScheduleIsLater(spec.schedule.value, LastRun(spec, s.status), m.input.now, spec.deadline);
      var c := NextSchedule(spec.schedule.value, LastRun(spec, s.status), m.input.now, spec.deadline);
      if c.Some? && s.status.nextScheduledTime.None? {
        PlanOkAfterPlan(spec, s, SyncedStatus(s.jobs, s.status), Without(s.jobs, m.fate.pruned), c.value,
          m.input, m.fate);
      }
    }
  }

  lemma {:induction false} PlanOkAlways(spec: Spec, moves: seq<Move>)
    requires ValidSpec(spec)
    ensures PlanOk(spec, RunTo(spec, FRESH, moves).status)
  {
    if moves != [] {
      PlanOkAlways(spec, moves[..|moves| - 1]);
      PlanOkAfter(spec, RunTo(spec, FRESH, moves[..|moves| - 1]), moves[|moves| - 1]);
    }
  }

  /**
   * When the window ends by the next firing and there is no starting deadline, dispatching a planned time leaves the
   * direct successor of the occurrence just served as the one considered next: none is missed.
   */
  lemma PlannedDispatchMissesNone(spec: Spec, s: State, input: Input, f: Fate, later: int)
    requires ValidSpec(spec) && PlanOk(spec, s.status) && s.status.nextScheduledTime.Some?
    requires spec.deadline.None? && f.stored
    requires s.status.nextCronWindow.value + spec.window <= spec.schedule.value(s.status.nextCronWindow.value)
    requires Reconcile(spec, s, input, f).event.Dispatched?
    ensures var c := s.status.nextCronWindow.value;
            && Reconcile(spec, s, input, f).event == Dispatched(c, s.status.nextScheduledTime.value)
            && NextSchedule(spec.schedule.value, LastRun(spec, Reconcile(spec, s, input, f).state.status), later, None)
               == Some(spec.schedule.value(c))
  {
    SuccessorIsNextIff(spec.schedule.value, s.status.nextCronWindow.value, s.status.nextScheduledTime.value);
  }

  /** The webhook's check is enough for that, for every schedule whose gaps repeat within its sample. */
  lemma AdmittedSpecMissesNone(spec: Spec, s: State, input: Input, f: Fate, later: int, ref: int, p: nat)
    requires ValidSpec(spec) && PlanOk(spec, s.status) && s.status.nextScheduledTime.Some?
    requires spec.deadline.None? && f.stored && Reconcile(spec, s, input, f).event.Dispatched?
    requires 0 < p <= SAMPLES - 1 && Repeats(spec.schedule.value, ref, p) && s.status.nextCronWindow.value > ref
    requires forall i :: 0 <= i < SAMPLES - 1 ==> spec.window <= Gap(spec.schedule.value, ref, i)
    ensures NextSchedule(spec.schedule.value, LastRun(spec, Reconcile(spec, s, input, f).state.status), later, None)
            == Some(spec.schedule.value(s.status.nextCronWindow.value))
  {
    AdmittedWindowEndsInTime(spec.schedule.value, ref, p, spec.window, s.status.nextCronWindow.value);
    PlannedDispatchMissesNone(spec, s, input, f, later);
  }

  // ---- Occurrences are served in order, each at most once ----

  /**
   * An event serves an occurrence after the last run before it, at or after that occurrence, and is the last run after
   * it.
   */
  ghost predicate Advances(e: Event, before: int, after: int) {
    if e.Quiet? then after == before else before < e.occurrence <= e.at == after
  }

  lemma EventsAdvance(spec: Spec, s: State, m: Move)
    requires ValidSpec(spec) && PlanOk(spec, s.status) && (m.Reconciled? ==> m.fate.stored)
    ensures Advances(EventOf(spec, s, m), LastRun(spec, s.status), LastRun(spec, Advance(spec, s, m).status))
    ensures !EventOf(spec, s, m).Quiet? ==>
              spec.schedule.Some? && Fires(spec.schedule.value, EventOf(spec, s, m).occurrence)
  {
    if m.Reconciled? && spec.schedule.Some? {
      NextScheduleIsLater(spec.schedule.value, LastRun(spec, s.status), m.input.now, spec.deadline);
    }
  }

  /** The event of move i of a run. */
  ghost function EventAt(spec: Spec, moves: seq<Move>, i: nat): Event
    requires IsShortHash(spec.hash) && i < |moves|
  {
    EventOf(spec, RunTo(spec, FRESH, moves[..i]), moves[i])
  }

  ghost predicate AllStored(moves: seq<Move>) {
    forall i :: 0 <= i < |moves| && moves[i].Reconciled? ==> moves[i].fate.stored
  }

  ghost function EventsOf(spec: Spec, moves: seq<Move>): seq<Event>
    requires IsShortHash(spec.hash)
  {
    seq(|moves|, i requires 0 <= i < |moves| => EventAt(spec, moves, i))
  }

  ghost function LastRuns(spec: Spec, moves: seq<Move>): seq<int>
    requires IsShortHash(spec.hash)
  {
    seq(|moves| + 1, i requires 0 <= i <= |moves| => LastRun(spec, RunTo(spec, FRESH, moves[..i]).status))
  }

  /** Events and the last runs between them, abstracted from how they came about. */
  ghost predicate Chain(events: seq<Event>, lasts: seq<int>) {
    |lasts| == |events| + 1 && forall i, j :: 0 <= i < |events| && j == i + 1 ==>
        Advances(events[i], lasts[i], lasts[j])
  }

  lemma MoveAdvances(spec: Spec, moves: seq<Move>, i: nat)
    requires ValidSpec(spec) && AllStored(moves) && i < |moves|
    ensures Advances(EventAt(spec, moves, i), LastRun(spec, RunTo(spec, FRESH, moves[..i]).status),
                     LastRun(spec, RunTo(spec, FRESH, moves[..i + 1]).status))
  {
    PlanOkAlways(spec, moves[..i]);
    EventsAdvance(spec, RunTo(spec, FRESH, moves[..i]), moves[i]);
    assert moves[..i + 1][..i] == moves[..i];
  }

  lemma RunIsChain(spec: Spec, moves: seq<Move>)
    requires ValidSpec(spec) && AllStored(moves)
    ensures Chain(EventsOf(spec, moves), LastRuns(spec, moves))
  {
    forall i | 0 <= i < |moves|
      ensures Advances(EventsOf(spec, moves)[i], LastRuns(spec, moves)[i], LastRuns(spec, moves)[i + 1])
    {
      MoveAdvances(spec, moves, i);
    }
  }

  lemma {:induction false} ChainNeverFalls(events: seq<Event>, lasts: seq<int>, i: nat, j: nat)
    requires Chain(events, lasts) && i <= j <= |events|
    ensures lasts[i] <= lasts[j]
    decreases j - i
  {
    if i < j {
      ChainNeverFalls(events, lasts, i, j - 1);
      assert Advances(events[j - 1], lasts[j - 1], lasts[(j - 1) + 1]);
    }
  }

  lemma ChainIsOrdered(events: seq<Event>, lasts: seq<int>, i: nat, j: nat)
    requires Chain(events, lasts) && i < j < |events| && !events[i].Quiet? && !events[j].Quiet?
    ensures lasts[0] < events[i].occurrence <= events[i].at < events[j].occurrence <= events[j].at
  {
    ChainNeverFalls(events, lasts, 0, i);
    ChainNeverFalls(events, lasts, i + 1, j);
    assert Advances(events[i], lasts[i], lasts[i + 1]) && Advances(events[j], lasts[j], lasts[j + 1]);
  }

  /** Every dispatch and every skip serves a strictly later occurrence than everything before it, all after creation. */
  lemma OccurrencesStrictlyIncrease(spec: Spec, moves: seq<Move>, i: nat, j: nat)
    requires ValidSpec(spec) && AllStored(moves) && i < j < |moves|
    ensures var e, l := EventAt(spec, moves, i), EventAt(spec, moves, j);
            !e.Quiet? && !l.Quiet? ==> spec.creation < e.occurrence <= e.at < l.occurrence <= l.at
  {
    RunIsChain(spec, moves);
    assert moves[..0] == [];
    var events := EventsOf(spec, moves);
    if !events[i].Quiet? && !events[j].Quiet? {
      ChainIsOrdered(events, LastRuns(spec, moves), i, j);
    }
  }

  /** So no two dispatches of one cron job ever use the same Job name. */
  lemma NamesNeverRepeat(spec: Spec, moves: seq<Move>, i: nat, j: nat)
    requires ValidSpec(spec) && AllStored(moves) && i < j < |moves| && spec.creation >= 0
    requires EventAt(spec, moves, i).Dispatched? && EventAt(spec, moves, j).Dispatched?
    requires EventAt(spec, moves, j).at <= MAX_INT64
    ensures JobName(spec.hash, spec.name, EventAt(spec, moves, i).at)
            != JobName(spec.hash, spec.name, EventAt(spec, moves, j).at)
  {
    OccurrencesStrictlyIncrease(spec, moves, i, j);
    JobNamesDistinct(spec.hash, spec.name, EventAt(spec, moves, i).at, EventAt(spec, moves, j).at);
  }
}
