/**
 * The Jobs of one cron job: which still run, when one last succeeded, and which finished ones are pruned
 * (syncActiveJobs in internal/controller/energyawarecronjob_controller.go).
 */
module History {
  import opened Options

  datatype ConditionType = JobComplete | JobFailed | OtherCondition

  datatype Condition = Condition(kind: ConditionType, isTrue: bool)

  datatype Job = Job(name: string, conditions: seq<Condition>, startTime: Option<int>, created: int,
                     completionTime: Option<int>)

  datatype Status = Status(active: seq<string>, lastScheduleTime: Option<int>, nextCronWindow: Option<int>,
                           nextScheduledTime: Option<int>, lastSuccessfulTime: Option<int>)

  predicate IsTerminal(c: Condition) {
    (c.kind == JobComplete || c.kind == JobFailed) && c.isTrue
  }

  /** The terminal state of a job: its first true terminal condition. */
  function Outcome(conditions: seq<Condition>): Option<ConditionType> {
    if conditions == [] then None
    else if IsTerminal(conditions[0]) then Some(conditions[0].kind)
    else Outcome(conditions[1..])
  }

  /** Condition i is true, of one of the two kinds that end a job, and the first such. */
  predicate EndsAt(conditions: seq<Condition>, i: nat, kind: ConditionType) {
    i < |conditions| && conditions[i] == Condition(kind, true) && kind in {JobComplete, JobFailed}
      && NoneEnds(conditions[..i])
  }

  predicate NoneEnds(conditions: seq<Condition>) {
    Condition(JobComplete, true) !in conditions && Condition(JobFailed, true) !in conditions
  }

  /** A job has ended in the way of its first true ending condition, and goes on while it has none. */
  lemma {:induction false} OutcomeIff(conditions: seq<Condition>, kind: ConditionType)
    ensures Outcome(conditions).None? <==> NoneEnds(conditions)
    ensures Outcome(conditions) == Some(kind) <==> exists i :: 0 <= i < |conditions| && EndsAt(conditions, i, kind)
  {
    if conditions != [] {
      var rest := conditions[1..];
      OutcomeIff(rest, kind);
      assert conditions == [conditions[0]] + rest;
      if IsTerminal(conditions[0]) && conditions[0].kind == kind {
        assert EndsAt(conditions, 0, kind);
      }
      if !IsTerminal(conditions[0]) && Outcome(rest) == Some(kind) {
        var i :| 0 <= i < |rest| && EndsAt(rest, i, kind);
        assert conditions[..i + 1] == [conditions[0]] + rest[..i];
        assert EndsAt(conditions, i + 1, kind);
      }
      forall i | 0 <= i < |conditions| && EndsAt(conditions, i, kind)
        ensures Outcome(conditions) == Some(kind)
      {
        if i > 0 {
          assert conditions[..i] == [conditions[0]] + rest[..i - 1];
          assert EndsAt(rest, i - 1, kind);
        }
      }
    }
  }

  method JobFinished(job: Job) returns (r: Option<ConditionType>)
    ensures r == Outcome(job.conditions)
    ensures r.None? <==> NoneEnds(job.conditions)
    ensures r.Some? ==> exists i :: 0 <= i < |job.conditions| && EndsAt(job.conditions, i, r.value)
  {
    for i := 0 to |job.conditions|
      invariant Outcome(job.conditions) == Outcome(job.conditions[i..])
      invariant forall j :: 0 <= j < i ==> !IsTerminal(job.conditions[j])
    {
      if IsTerminal(job.conditions[i]) {
        assert EndsAt(job.conditions, i, job.conditions[i].kind);
        return Some(job.conditions[i].kind);
      }
    }
    return None;
  }

  predicate Unfinished(job: Job) {
    Outcome(job.conditions).None?
  }

  function Start(job: Job): int {
    job.startTime.GetOr(job.created)
  }

  ghost predicate UniqueNames(jobs: seq<Job>) {
    forall i, j :: 0 <= i < j < |jobs| ==> jobs[i].name != jobs[j].name
  }

  function JobNames(jobs: seq<Job>): set<string> {
    if jobs == [] then {} else JobNames(jobs[..|jobs| - 1]) + {jobs[|jobs| - 1].name}
  }

  lemma {:induction false} JobNamesIff(jobs: seq<Job>, name: string)
    ensures name in JobNames(jobs) <==> exists i :: 0 <= i < |jobs| && jobs[i].name == name
  {
    if jobs != [] {
      var n := |jobs| - 1;
      JobNamesIff(jobs[..n], name);
      if name in JobNames(jobs[..n]) {
        var i :| 0 <= i < n && jobs[..n][i].name == name;
        assert jobs[i].name == name;
      } else if exists i :: 0 <= i < |jobs| && jobs[i].name == name {
        var i :| 0 <= i < |jobs| && jobs[i].name == name;
        assert i < n ==> jobs[..n][i].name == name;
      }
    }
  }

  /** The names of the jobs still running, in listing order. */
  function Active(jobs: seq<Job>): seq<string> {
    if jobs == [] then []
    else
      var n := |jobs| - 1;
      if Unfinished(jobs[n]) then Active(jobs[..n]) + [jobs[n].name] else Active(jobs[..n])
  }

  /** The jobs that ended in the given way. Everything finished that is not complete counts as failed. */
  function OfKind(jobs: seq<Job>, complete: bool): seq<Job> {
    if jobs == [] then []
    else
      var n := |jobs| - 1;
      if IsOfKind(jobs[n], complete) then OfKind(jobs[..n], complete) + [jobs[n]] else OfKind(jobs[..n], complete)
  }

  /** The jobs of the two kinds are the completed ones and the failed ones. */
  lemma OfKindIff(jobs: seq<Job>, job: Job)
    ensures job in OfKind(jobs, true) <==> job in jobs && Outcome(job.conditions) == Some(JobComplete)
    ensures job in OfKind(jobs, false) <==> job in jobs && Outcome(job.conditions) == Some(JobFailed)
  {
    OfKindMembers(jobs, true, job);
    OfKindMembers(jobs, false, job);
    OnlyTwoOutcomes(job.conditions);
  }

  lemma {:induction false} OnlyTwoOutcomes(conditions: seq<Condition>)
    ensures Outcome(conditions) in {None, Some(JobComplete), Some(JobFailed)}
  {
    if conditions != [] {
      OnlyTwoOutcomes(conditions[1..]);
    }
  }

  predicate IsOfKind(job: Job, complete: bool) {
    !Unfinished(job) && (Outcome(job.conditions) == Some(JobComplete)) == complete
  }

  /** The later of two instants, one of which may be unknown. */
  function Later(last: Option<int>, t: int): Option<int> {
    if last.None? || t > last.value then Some(t) else last
  }

  function LastSuccess(jobs: seq<Job>, last: Option<int>): Option<int> {
    if jobs == [] then last
    else
      var n := |jobs| - 1;
      var r := LastSuccess(jobs[..n], last);
      if IsOfKind(jobs[n], true) && jobs[n].completionTime.Some? then Later(r, jobs[n].completionTime.value) else r
  }

  ghost predicate Completed(job: Job) {
    Outcome(job.conditions) == Some(JobComplete)
  }

  /** The last success is the maximum of its old value and every completion time, pruned jobs included. */
  lemma {:induction false} LastSuccessIsMaximum(jobs: seq<Job>, last: Option<int>)
    ensures var r := LastSuccess(jobs, last);
            && (last.Some? ==> r.Some? && last.value <= r.value)
            && (forall i :: 0 <= i < |jobs| && Completed(jobs[i]) && jobs[i].completionTime.Some? ==>
                  r.Some? && jobs[i].completionTime.value <= r.value)
            && (r.Some? && r != last ==>
                  exists i :: 0 <= i < |jobs| && Completed(jobs[i]) && jobs[i].completionTime == r)
  {
    if jobs != [] {
      var n := |jobs| - 1;
      LastSuccessIsMaximum(jobs[..n], last);
      var q, r := LastSuccess(jobs[..n], last), LastSuccess(jobs, last);
      if r == q && r.Some? && r != last {
        var i :| 0 <= i < n && IsOfKind(jobs[..n][i], true) && jobs[..n][i].completionTime == r;
        assert IsOfKind(jobs[i], true) && jobs[i].completionTime == r;
      }
      forall i | 0 <= i < |jobs| && IsOfKind(jobs[i], true) && jobs[i].completionTime.Some?
        ensures r.Some? && jobs[i].completionTime.value <= r.value
      {
        if i < n {
          assert jobs[..n][i] == jobs[i];
        }
      }
    }
  }

  /** The jobs that are left when the named ones are deleted. */
  function Without(jobs: seq<Job>, names: set<string>): seq<Job> {
    if jobs == [] then []
    else
      var n := |jobs| - 1;
      if jobs[n].name in names then Without(jobs[..n], names) else Without(jobs[..n], names) + [jobs[n]]
  }

  lemma {:induction false} WithoutMembers(jobs: seq<Job>, names: set<string>, job: Job)
    ensures job in Without(jobs, names) <==> job in jobs && job.name !in names
  {
    if jobs != [] {
      var n := |jobs| - 1;
      WithoutMembers(jobs[..n], names, job);
      assert jobs == jobs[..n] + [jobs[n]];
    }
  }

  lemma {:induction false} WithoutTwice(jobs: seq<Job>, a: set<string>, b: set<string>)
    ensures Without(Without(jobs, a), b) == Without(jobs, a + b)
  {
    if jobs != [] {
      var n := |jobs| - 1;
      WithoutTwice(jobs[..n], a, b);
      if jobs[n].name !in a {
        var w := Without(jobs[..n], a) + [jobs[n]];
        assert w[..|w| - 1] == Without(jobs[..n], a);
      }
    }
  }

  lemma {:induction false} WithoutNone(jobs: seq<Job>)
    ensures Without(jobs, {}) == jobs
  {
    if jobs != [] {
      WithoutNone(jobs[..|jobs| - 1]);
    }
  }

  lemma {:induction false} OfKindMembers(jobs: seq<Job>, complete: bool, job: Job)
    ensures job in OfKind(jobs, complete) <==> job in jobs && IsOfKind(job, complete)
  {
    if jobs != [] {
      var n := |jobs| - 1;
      OfKindMembers(jobs[..n], complete, job);
      assert jobs == jobs[..n] + [jobs[n]];
    }
  }

  lemma {:induction false} OfKindWithout(jobs: seq<Job>, complete: bool, names: set<string>)
    ensures OfKind(Without(jobs, names), complete) == Without(OfKind(jobs, complete), names)
  {
    if jobs != [] {
      var n := |jobs| - 1;
      OfKindWithout(jobs[..n], complete, names);
      var w, k := Without(jobs[..n], names), OfKind(jobs[..n], complete);
      assert (w + [jobs[n]])[..|w|] == w && (k + [jobs[n]])[..|k|] == k;
    }
  }

  lemma {:induction false} OfKindUnique(jobs: seq<Job>, complete: bool)
    requires UniqueNames(jobs)
    ensures UniqueNames(OfKind(jobs, complete))
  {
    if jobs != [] {
      var n := |jobs| - 1;
      OfKindUnique(jobs[..n], complete);
      var k := OfKind(jobs[..n], complete);
      forall i | 0 <= i < |k|
        ensures k[i].name != jobs[n].name
      {
        OfKindMembers(jobs[..n], complete, k[i]);
      }
    }
  }

  lemma {:induction false} WithoutUnique(jobs: seq<Job>, names: set<string>)
    requires UniqueNames(jobs)
    ensures UniqueNames(Without(jobs, names))
  {
    if jobs != [] {
      var n := |jobs| - 1;
      WithoutUnique(jobs[..n], names);
      var k := Without(jobs[..n], names);
      forall i | 0 <= i < |k|
        ensures k[i].name != jobs[n].name
      {
        WithoutMembers(jobs[..n], names, k[i]);
      }
    }
  }

  lemma {:induction false} WithoutCount(jobs: seq<Job>, names: set<string>)
    requires UniqueNames(jobs) && names <= JobNames(jobs)
    ensures |Without(jobs, names)| == |jobs| - |names|
  {
    if jobs != [] {
      var n, last := |jobs| - 1, jobs[|jobs| - 1].name;
      var rest := names - {last};
      WithoutCount(jobs[..n], rest);
      WithoutIrrelevant(jobs[..n], names, rest);
      assert names == if last in names then rest + {last} else rest;
    }
  }

  lemma {:induction false} WithoutIrrelevant(jobs: seq<Job>, a: set<string>, b: set<string>)
    requires forall i :: 0 <= i < |jobs| ==> (jobs[i].name in a <==> jobs[i].name in b)
    ensures Without(jobs, a) == Without(jobs, b)
  {
    if jobs != [] {
      WithoutIrrelevant(jobs[..|jobs| - 1], a, b);
    }
  }

  lemma {:induction false} JobNamesCount(jobs: seq<Job>)
    requires UniqueNames(jobs)
    ensures |JobNames(jobs)| == |jobs|
  {
    if jobs != [] {
      var n := |jobs| - 1;
      JobNamesCount(jobs[..n]);
      JobNamesIff(jobs[..n], jobs[n].name);
    }
  }

  // ---- Sorting ----

  ghost predicate OldestFirst(jobs: seq<Job>) {
    forall i, j :: 0 <= i < j < |jobs| ==> Start(jobs[i]) <= Start(jobs[j])
  }

  /** Some ordering by start time; jobs that started together may come in any order. */
  method SortByStart(jobs: seq<Job>) returns (sorted: seq<Job>)
    requires UniqueNames(jobs)
    ensures OldestFirst(sorted) && UniqueNames(sorted) && |sorted| == |jobs|
    ensures forall job :: job in sorted <==> job in jobs
  {
    sorted := [];
    for i := 0 to |jobs|
      invariant OldestFirst(sorted) && UniqueNames(sorted) && |sorted| == i
      invariant forall job :: job in sorted <==> job in jobs[..i]
    {
      forall j | 0 <= j < |sorted|
        ensures sorted[j].name != jobs[i].name
      {
        assert sorted[j] in jobs[..i];
      }
      assert jobs[..i + 1] == jobs[..i] + [jobs[i]];
      sorted := InsertByStart(sorted, jobs[i]);
    }
    assert jobs[..|jobs|] == jobs;
  }

  method InsertByStart(sorted: seq<Job>, x: Job) returns (r: seq<Job>)
    requires OldestFirst(sorted) && UniqueNames(sorted) && forall j :: 0 <= j < |sorted| ==> sorted[j].name != x.name
    ensures OldestFirst(r) && UniqueNames(r) && |r| == |sorted| + 1
    ensures forall job :: job in r <==> job in sorted || job == x
  {
    var p := 0;
    while p < |sorted| && Start(sorted[p]) <= Start(x)
      invariant 0 <= p <= |sorted|
      invariant forall j :: 0 <= j < p ==> Start(sorted[j]) <= Start(x)
    {
      p := p + 1;
    }
    InsertedMembers(sorted, p, x);
    r := sorted[..p] + [x] + sorted[p..];
  }

  lemma InsertedMembers(s: seq<Job>, p: nat, x: Job)
    requires p <= |s|
    ensures forall job :: job in s[..p] + [x] + s[p..] <==> job in s || job == x
  {
    assert s == s[..p] + s[p..];
  }

  // ---- Pruning ----

  /**
   * What keeping at most limit jobs of one kind means: as many as allowed are kept, and the ones deleted started no
   * later than the ones kept.
   */
  ghost predicate Keeps(before: seq<Job>, after: seq<Job>, complete: bool, limit: nat) {
    && |OfKind(after, complete)| == (if |OfKind(before, complete)| <= limit then |OfKind(before, complete)| else limit)
    && forall a, b :: a in OfKind(before, complete) && a !in after && b in OfKind(after, complete) ==>
         StartedNoLater(a, b)
  }

  /** By the time it was started, or created while that is unknown. */
  ghost predicate StartedNoLater(a: Job, b: Job) {
    (if a.startTime.Some? then a.startTime.value else a.created)
    <= (if b.startTime.Some? then b.startTime.value else b.created)
  }

  lemma OldestDeletedKeeps(before: seq<Job>, complete: bool, limit: nat, sorted: seq<Job>)
    requires UniqueNames(before) && OldestFirst(sorted) && UniqueNames(sorted)
    requires |sorted| == |OfKind(before, complete)| && |sorted| > limit
    requires forall job :: job in sorted <==> job in OfKind(before, complete)
    ensures Keeps(before, Without(before, JobNames(sorted[..|sorted| - limit])), complete, limit)
  {
    var cut := |sorted| - limit;
    var gone := JobNames(sorted[..cut]);
    var kind := OfKind(before, complete);
    var after := Without(before, gone);
    OfKindUnique(before, complete);
    OfKindWithout(before, complete, gone);
    JobNamesCount(sorted[..cut]);
    forall name | name in gone
      ensures name in JobNames(kind)
    {
      JobNamesIff(sorted[..cut], name);
      JobNamesIff(kind, name);
      var i :| 0 <= i < cut && sorted[..cut][i].name == name;
      assert sorted[i] in kind;
    }
    WithoutCount(kind, gone);
    forall a, b | a in kind && a !in after && b in OfKind(after, complete)
      ensures StartedNoLater(a, b)
    {
      OfKindMembers(before, complete, a);
      WithoutMembers(before, gone, a);
      WithoutMembers(kind, gone, b);
      FirstStartedNoLater(sorted, cut, a, b);
    }
  }

  lemma FirstStartedNoLater(sorted: seq<Job>, cut: nat, a: Job, b: Job)
    requires OldestFirst(sorted) && UniqueNames(sorted) && cut <= |sorted| && a in sorted && b in sorted
    requires a.name in JobNames(sorted[..cut]) && b.name !in JobNames(sorted[..cut])
    ensures StartedNoLater(a, b)
  {
    JobNamesIff(sorted[..cut], a.name);
    var i :| 0 <= i < cut && sorted[..cut][i].name == a.name;
    var p :| 0 <= p < |sorted| && sorted[p] == a;
    assert p == i by { assert sorted[i].name == sorted[p].name; }
    var q :| 0 <= q < |sorted| && sorted[q] == b;
    JobNamesIff(sorted[..cut], b.name);
    forall k | 0 <= k < cut
      ensures sorted[k].name != b.name
    {
      assert sorted[..cut][k] == sorted[k];
    }
  }

  lemma NothingDeletedKeeps(jobs: seq<Job>, complete: bool, limit: nat)
    requires |OfKind(jobs, complete)| <= limit
    ensures Keeps(jobs, jobs, complete, limit)
  {
    forall a | a in OfKind(jobs, complete)
      ensures a in jobs
    {
      OfKindMembers(jobs, complete, a);
    }
  }

  /** Deleting jobs of the other kind changes nothing for this one. */
  lemma OtherKindUntouched(before: seq<Job>, names: set<string>, complete: bool)
    requires UniqueNames(before)
    requires forall i :: 0 <= i < |before| && before[i].name in names ==> IsOfKind(before[i], !complete)
    ensures OfKind(Without(before, names), complete) == OfKind(before, complete)
    ensures forall job :: job in OfKind(before, complete) ==> job in Without(before, names)
  {
    OfKindWithout(before, complete, names);
    var kind := OfKind(before, complete);
    forall i | 0 <= i < |kind|
      ensures kind[i].name !in names
    {
      OfKindMembers(before, complete, kind[i]);
    }
    WithoutIrrelevant(kind, names, {});
    WithoutNone(kind);
    forall job | job in kind
      ensures job in Without(before, names)
    {
      OfKindMembers(before, complete, job);
      WithoutMembers(before, names, job);
    }
  }

  const DEFAULT_SUCCESS_LIMIT := 3
  const DEFAULT_FAILED_LIMIT := 1

  predicate LimitsOk(successLimit: Option<int>, failedLimit: Option<int>) {
    && (successLimit.Some? ==> successLimit.value >= 0)
    && (failedLimit.Some? ==> failedLimit.value >= 0)
  }

  /** The status as syncActiveJobs leaves it in memory. */
  function SyncedStatus(jobs: seq<Job>, status: Status): Status {
    status.(active := Active(jobs), lastSuccessfulTime := LastSuccess(jobs, status.lastSuccessfulTime))
  }

  /** Every deleted job had ended in the given way. */
  ghost predicate OnlyKind(jobs: seq<Job>, names: set<string>, complete: bool) {
    forall i :: 0 <= i < |jobs| && jobs[i].name in names ==> IsOfKind(jobs[i], complete)
  }

  ghost predicate OnlyFinished(jobs: seq<Job>, names: set<string>) {
    forall i :: 0 <= i < |jobs| && jobs[i].name in names ==> !Unfinished(jobs[i])
  }

  /** Pruning one kind and then the other is pruning both. */
  lemma KeepsBoth(before: seq<Job>, mid: seq<Job>, after: seq<Job>, a: set<string>, b: set<string>, success: nat,
                  failure: nat)
    requires UniqueNames(before) && mid == Without(before, a) && after == Without(mid, b)
    requires OnlyKind(before, a, true) && OnlyKind(mid, b, false)
    requires Keeps(before, mid, true, success) && Keeps(mid, after, false, failure)
    ensures Keeps(before, after, true, success) && Keeps(before, after, false, failure)
  {
    WithoutUnique(before, a);
    OtherKindUntouched(before, a, false);
    OtherKindUntouched(mid, b, true);
    forall job | job in OfKind(before, true) && job !in after
      ensures job !in mid
    {
      OfKindMembers(before, true, job);
      OfKindMembers(mid, true, job);
    }
  }

  lemma OnlyFinishedBoth(before: seq<Job>, a: set<string>, b: set<string>)
    requires OnlyKind(before, a, true) && OnlyKind(Without(before, a), b, false)
    ensures OnlyFinished(before, a + b)
  {
    forall i | 0 <= i < |before| && before[i].name in a + b
      ensures !Unfinished(before[i])
    {
      if before[i].name !in a {
        WithoutMembers(before, a, before[i]);
        var mid := Without(before, a);
        var j :| 0 <= j < |mid| && mid[j] == before[i];
      }
    }
  }

  function WithJob(jobs: seq<Job>, job: Job): seq<Job> {
    if job.name in JobNames(jobs) then jobs else jobs + [job]
  }

  /** The API objects of one cron job: its stored status and the Jobs it owns. A refused call changes nothing. */
  class CronJobObjects {
    var status: Status
    var jobs: seq<Job>
    /** How many calls were refused; only the calls themselves count here. */
    ghost var refusals: nat

    constructor (s: Status, js: seq<Job>)
      ensures status == s && jobs == js && refusals == 0
    {
      status, jobs, refusals := s, js, 0;
    }

    method Delete(name: string) returns (ok: bool)
      modifies this`jobs, this`refusals
      ensures jobs == if ok then Without(old(jobs), {name}) else old(jobs)
      ensures refusals == old(refusals) + (if ok then 0 else 1)
    {
      ok := *;
      if ok {
        jobs := Without(jobs, {name});
      } else {
        refusals := refusals + 1;
      }
    }

    /** A name already taken is not an error; the job that has it stays. */
    method Create(job: Job) returns (ok: bool)
      modifies this`jobs, this`refusals
      ensures jobs == if ok then WithJob(old(jobs), job) else old(jobs)
      ensures refusals == old(refusals) + (if ok then 0 else 1)
    {
      ok := *;
      if ok {
        var taken := false;
        for i := 0 to |jobs|
          invariant taken <==> job.name in JobNames(jobs[..i])
          invariant jobs == old(jobs)
        {
          assert jobs[..i + 1][..i] == jobs[..i];
          if jobs[i].name == job.name {
            taken := true;
          }
        }
        assert jobs[..|jobs|] == jobs;
        if !taken {
          jobs := jobs + [job];
        }
      } else {
        refusals := refusals + 1;
      }
    }

    method PatchStatus(s: Status) returns (ok: bool)
      modifies this`status, this`refusals
      ensures status == if ok then s else old(status)
      ensures refusals == old(refusals) + (if ok then 0 else 1)
    {
      ok := *;
      if ok {
        status := s;
      } else {
        refusals := refusals + 1;
      }
    }

    /**
     * Deletes the oldest jobs of one kind until no more than limit are left. A negative limit, which nothing rules out,
     * makes the excess larger than the list: taking that many jobs panics, at once or, within the spare capacity of the
     * list, when the first job that is not there is to be deleted.
     */
    method DeleteExcess(list: seq<Job>, complete: bool, limit: int)
      returns (ok: bool, panicked: bool, ghost pruned: set<string>)
      requires UniqueNames(jobs) && list == OfKind(jobs, complete)
      modifies this`jobs, this`refusals
      ensures refusals >= old(refusals) && (ok <==> !panicked && refusals == old(refusals))
      ensures jobs == Without(old(jobs), pruned) && OnlyKind(old(jobs), pruned, complete)
      ensures ok ==> limit >= 0 && !panicked && Keeps(old(jobs), jobs, complete, limit)
      ensures panicked ==> limit < 0
    {
      ok, panicked, pruned := true, false, {};
      WithoutNone(jobs);
      var excess := |list| - limit;
      if excess <= 0 {
        NothingDeletedKeeps(jobs, complete, limit);
        return;
      }
      var spare: int := *;
      if spare >= 0 && excess > |list| + spare {
        return false, true, {};
      }
      OfKindUnique(jobs, complete);
      var sorted := SortByStart(list);
      if excess > |sorted| {
        ok, pruned := DeleteFirst(sorted, complete, |sorted|);
        return false, ok, pruned;
      }
      ok, pruned := DeleteFirst(sorted, complete, excess);
      if ok {
        OldestDeletedKeeps(old(jobs), complete, limit, sorted);
      }
    }

    /** Deletes the first n of the listed jobs, stopping at the first refusal. */
    method DeleteFirst(sorted: seq<Job>, complete: bool, n: nat) returns (ok: bool, ghost pruned: set<string>)
      requires UniqueNames(jobs) && n <= |sorted| && forall job :: job in sorted ==> job in OfKind(jobs, complete)
      modifies this`jobs, this`refusals
      ensures refusals >= old(refusals) && (ok <==> refusals == old(refusals))
      ensures jobs == Without(old(jobs), pruned) && OnlyKind(old(jobs), pruned, complete)
      ensures ok ==> pruned == JobNames(sorted[..n])
    {
      ok, pruned := true, {};
      WithoutNone(jobs);
      for i := 0 to n
        invariant pruned == JobNames(sorted[..i]) && jobs == Without(old(jobs), pruned) && refusals == old(refusals)
        invariant ok
        invariant OnlyKind(old(jobs), pruned, complete)
      {
        SameNameSameJob(old(jobs), complete, sorted[i]);
        WithoutTwice(old(jobs), pruned, {sorted[i].name});
        assert sorted[..i + 1][..i] == sorted[..i];
        ok := Delete(sorted[i].name);
        if !ok {
          return;
        }
        pruned := pruned + {sorted[i].name};
      }
    }

    /** One pass over the listing: running jobs, the last success, and the finished jobs of both kinds. */
    static method Classify(list: seq<Job>, lastSuccess: Option<int>)
      returns (active: seq<string>, last: Option<int>, successful: seq<Job>, failed: seq<Job>)
      ensures active == Active(list) && last == LastSuccess(list, lastSuccess)
      ensures successful == OfKind(list, true) && failed == OfKind(list, false)
    {
      active, last, successful, failed := [], lastSuccess, [], [];
      for i := 0 to |list|
        invariant active == Active(list[..i]) && last == LastSuccess(list[..i], lastSuccess)
        invariant successful == OfKind(list[..i], true) && failed == OfKind(list[..i], false)
      {
        var job := list[i];
        assert list[..i + 1][..i] == list[..i];
        var outcome := JobFinished(job);
        if outcome.None? {
          active := active + [job.name];
        } else if outcome.value == JobComplete {
          successful := successful + [job];
          if job.completionTime.Some? {
            if last.None? || job.completionTime.value > last.value {
              last := job.completionTime;
            }
          }
        } else {
          failed := failed + [job];
        }
      }
      assert list[..|list|] == list;
    }

    /**
     * syncActiveJobs: works out the running jobs and the last success in memory and deletes excess history, the
     * successful jobs first. An error stops it with part of the history deleted and nothing stored.
     */
    method SyncActiveJobs(base: Status, successLimit: Option<int>, failedLimit: Option<int>)
      returns (synced: Status, ok: bool, panicked: bool, ghost pruned: set<string>)
      requires UniqueNames(jobs)
      modifies this`jobs, this`refusals
      ensures refusals >= old(refusals) && (ok <==> !panicked && refusals == old(refusals))
      ensures synced == SyncedStatus(old(jobs), base)
      ensures jobs == Without(old(jobs), pruned) && OnlyFinished(old(jobs), pruned)
      ensures ok ==> LimitsOk(successLimit, failedLimit) && !panicked
                     && Keeps(old(jobs), jobs, true, successLimit.GetOr(3))
                     && Keeps(old(jobs), jobs, false, failedLimit.GetOr(1))
      ensures panicked ==> !LimitsOk(successLimit, failedLimit)
    {
      ghost var list := jobs;
      var active, last, successful, failed := Classify(jobs, base.lastSuccessfulTime);
      synced := base.(active := active, lastSuccessfulTime := last);
      ghost var a, b;
      ok, panicked, a := DeleteExcess(successful, true, successLimit.GetOr(DEFAULT_SUCCESS_LIMIT));
      pruned := a;
      if !ok {
        return;
      }
      ghost var mid := jobs;
      WithoutUnique(list, a);
      OtherKindUntouched(list, a, false);
      ok, panicked, b := DeleteExcess(failed, false, failedLimit.GetOr(DEFAULT_FAILED_LIMIT));
      WithoutTwice(list, a, b);
      OnlyFinishedBoth(list, a, b);
      pruned := a + b;
      if ok {
        KeepsBoth(list, mid, jobs, a, b, successLimit.GetOr(DEFAULT_SUCCESS_LIMIT),
          failedLimit.GetOr(DEFAULT_FAILED_LIMIT));
      }
    }
  }

  /** A listed job of one kind is the only job of its name. */
  lemma SameNameSameJob(jobs: seq<Job>, complete: bool, job: Job)
    requires UniqueNames(jobs) && job in OfKind(jobs, complete)
    ensures OnlyKind(jobs, {job.name}, complete)
  {
    OfKindMembers(jobs, complete, job);
  }
}
