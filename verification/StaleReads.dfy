/**
 * What it takes to lose safety. A marking patch carries no version, so it may land on a workload another policy has
 * marked since it was listed. That is harmless for safety exactly when no other policy is at work on the workload.
 */
module StaleReads {
  import opened Options
  import opened Cluster
  import opened Autoscalers
  import opened Hibernation
  import opened Protocol
  import opened Recovery

  /** Controller steps, none of them landing a marking patch, after which a suspended autoscaler's workload is awake. */
  ghost predicate Fatal(env: Env, s: System, rest: seq<Step>)
    decreases |rest|
  {
    if rest == [] then !SuspendedImpliesMarked(s.cluster)
    else IsHarmless(env, s, rest[0]) && Fatal(env, Next(env, s, rest[0]), rest[1..])
  }

  predicate IsHarmless(env: Env, s: System, step: Step) {
    IsController(step) && ValidStep(step) && !Lands(env, s, step)
  }

  lemma {:induction false} RunCons(env: Env, s: System, a: Step, rest: seq<Step>)
    ensures Run(env, s, [a] + rest) == Run(env, Next(env, s, a), rest)
  {
    var all := [a] + rest;
    if rest == [] {
      assert all[..0] == [] && Run(env, s, []) == s;
    } else {
      var n := |rest| - 1;
      RunCons(env, s, a, rest[..n]);
      assert all[..|all| - 1] == [a] + rest[..n];
    }
  }

  lemma {:induction false} NoClaimTakenCons(env: Env, s: System, a: Step, rest: seq<Step>)
    requires !LandsOnClaim(env, s, a) && NoClaimTaken(env, Next(env, s, a), rest)
    ensures NoClaimTaken(env, s, [a] + rest)
  {
    var all := [a] + rest;
    if rest == [] {
      assert all[..0] == [] && Run(env, s, []) == s && NoClaimTaken(env, s, []);
    } else {
      var n := |rest| - 1;
      NoClaimTakenCons(env, s, a, rest[..n]);
      RunCons(env, s, a, rest[..n]);
      assert all[..|all| - 1] == [a] + rest[..n];
    }
  }

  lemma {:induction false} FatalRun(env: Env, s: System, rest: seq<Step>)
    requires Fatal(env, s, rest)
    ensures !SuspendedImpliesMarked(Run(env, s, rest).cluster)
    ensures NoClaimTaken(env, s, rest) && ValidSteps(rest)
    ensures forall i :: 0 <= i < |rest| ==> IsController(rest[i])
    decreases |rest|
  {
    if rest != [] {
      FatalRun(env, Next(env, s, rest[0]), rest[1..]);
      RunCons(env, s, rest[0], rest[1..]);
      NoClaimTakenCons(env, s, rest[0], rest[1..]);
      assert rest == [rest[0]] + rest[1..];
    }
  }

  lemma FatalCons(env: Env, s: System, a: Step, rest: seq<Step>)
    requires IsHarmless(env, s, a) && Fatal(env, Next(env, s, a), rest)
    ensures Fatal(env, s, [a] + rest)
  {
    assert ([a] + rest)[1..] == rest;
  }

  /** Controllers alone, without another patch landing on a claim, can suspend an autoscaler whose workload is awake. */
  ghost predicate Doomed(env: Env, s: System) {
    exists rest :: ValidSteps(rest) && NoClaimTaken(env, s, rest)
      && (forall i :: 0 <= i < |rest| ==> IsController(rest[i]))
      && !SuspendedImpliesMarked(Run(env, s, rest).cluster)
  }

  lemma FatalMeansDoomed(env: Env, s: System, rest: seq<Step>)
    requires Fatal(env, s, rest)
    ensures Doomed(env, s)
  {
    FatalRun(env, s, rest);
  }

  // ---- The ways to lose safety ----

  ghost predicate HasHpa(c: Cluster, ref: Ref) {
    exists i :: 0 <= i < |c.hpas| && TargetRef(c.hpas[i]) == ref
  }

  lemma SameTargetsSameHpa(c: Cluster, d: Cluster, ref: Ref, of: Ref)
    requires HasHpa(c, ref) && OnlyHpaOf(c, d, of)
    ensures HasHpa(d, ref)
  {
    var i :| 0 <= i < |c.hpas| && TargetRef(c.hpas[i]) == ref;
    assert TargetRef(d.hpas[i]) == ref;
  }

  /** A successful suspension of an awake workload's autoscaler; c is the cluster as it was before the workload woke. */
  lemma SuspendAwake(env: Env, c: Cluster, d: Cluster, ref: Ref, target: int)
    requires ClusterOk(c) && ref in c.workloads && IsReplicaKind(ref.kind) && Marked(c.workloads[ref])
    requires IsCount(target)
    requires HasHpa(c, ref) && d.hpas == c.hpas && ref in d.workloads && !Marked(d.workloads[ref])
    ensures !SuspendedImpliesMarked(Suspend(env, d, ref, target, true).cluster)
  {
    SuspendOk(env, c, ref, target, true);
    var e, f := Suspend(env, c, ref, target, true).cluster, Suspend(env, d, ref, target, true).cluster;
    assert f.hpas == e.hpas && f.workloads == d.workloads;
    var i :| 0 <= i < |c.hpas| && TargetRef(c.hpas[i]) == ref;
    assert Suspended(e.hpas[i]) && TargetRef(e.hpas[i]) == ref;
  }

  ghost predicate Suspending(s: System, o: Owner, ref: Ref) {
    PcOf(s, o).SuspendPending? && PcOf(s, o).ref == ref && IsCount(PcOf(s, o).target)
  }

  ghost predicate Clearing(s: System, o: Owner, ref: Ref) {
    PcOf(s, o).ClearPending? && PcOf(s, o).ref == ref && Marked(PcOf(s, o).read)
  }

  /** What every way starts from: a sound cluster in which the marked workload has an autoscaler. */
  ghost predicate Scene(s: System, ref: Ref) {
    ClusterOk(s.cluster) && ref in s.cluster.workloads && IsReplicaKind(ref.kind) && Marked(s.cluster.workloads[ref])
    && HasHpa(s.cluster, ref)
  }

  /** Clearing wakes the workload and leaves all autoscalers and all other policies alone. */
  lemma ClearingWakes(env: Env, s: System, ref: Ref, p: Owner)
    requires Clearing(s, p, ref) && ref in s.cluster.workloads
    ensures var t := Next(env, s, FinishWake(p, true));
            && t.cluster.hpas == s.cluster.hpas && ref in t.cluster.workloads && !Marked(t.cluster.workloads[ref])
            && forall o :: o != p ==> PolicyOf(t, o) == PolicyOf(s, o)
  {
    ClearingUnmarks(env, ref, PcOf(s, p).read, s.cluster.workloads[ref]);
  }

  /** Suspending afterwards is fatal; s is the system as it was before the workload woke. */
  lemma SuspendingIsFatal(env: Env, s: System, t: System, ref: Ref, o: Owner)
    requires Scene(s, ref) && t.cluster.hpas == s.cluster.hpas && ref in t.cluster.workloads
    requires !Marked(t.cluster.workloads[ref])
    requires Suspending(t, o, ref)
    ensures Fatal(env, t, [FinishHibernate(o, true)])
  {
    SuspendAwake(env, s.cluster, t.cluster, ref, PcOf(t, o).target);
    assert Fatal(env, Next(env, t, FinishHibernate(o, true)), []);
    FatalCons(env, t, FinishHibernate(o, true), []);
    assert [FinishHibernate(o, true)] + [] == [FinishHibernate(o, true)];
  }

  /** p clears the workload while o has yet to suspend its autoscaler. */
  lemma ClearThenSuspend(env: Env, s: System, ref: Ref, p: Owner, o: Owner)
    requires Scene(s, ref) && p != o && Clearing(s, p, ref) && Suspending(s, o, ref)
    ensures Fatal(env, s, [FinishWake(p, true), FinishHibernate(o, true)])
  {
    ClearingWakes(env, s, ref, p);
    SuspendingIsFatal(env, s, Next(env, s, FinishWake(p, true)), ref, o);
    FatalCons(env, s, FinishWake(p, true), [FinishHibernate(o, true)]);
    assert [FinishWake(p, true)] + [FinishHibernate(o, true)] == [FinishWake(p, true), FinishHibernate(o, true)];
  }

  /** p, which has the workload listed as its own, wakes it while o has yet to suspend its autoscaler. */
  lemma WakeThenSuspend(env: Env, s: System, ref: Ref, p: Owner, o: Owner) returns (rest: seq<Step>)
    requires Scene(s, ref) && p != o && Suspending(s, o, ref)
    requires CanBegin(s, p, ref) && MarkedBy(PolicyOf(s, p).listing[ref], p)
    ensures Fatal(env, s, rest)
  {
    var a := BeginWake(p, ref, true);
    RestoresScene(env, s, ref, p);
    ClearThenSuspend(env, Next(env, s, a), ref, p, o);
    FatalCons(env, s, a, [FinishWake(p, true), FinishHibernate(o, true)]);
    rest := [a] + [FinishWake(p, true), FinishHibernate(o, true)];
  }

  lemma FinishesAndLists(env: Env, s: System, ref: Ref, p: Owner, o: Owner) returns (t: System, u: System)
    requires Scene(s, ref) && p != o && Suspending(s, p, ref) && Suspending(s, o, ref)
    requires MarkedBy(s.cluster.workloads[ref], o)
    ensures t == Next(env, s, FinishHibernate(o, true)) && u == Next(env, t, List(o))
    ensures Scene(u, ref) && Suspending(u, p, ref)
    ensures CanBegin(u, o, ref) && MarkedBy(PolicyOf(u, o).listing[ref], o)
  {
    t := Next(env, s, FinishHibernate(o, true));
    SuspendOk(env, s.cluster, ref, PcOf(s, o).target, true);
    SameTargetsSameHpa(s.cluster, t.cluster, ref, ref);
    u := Next(env, t, List(o));
    assert PolicyOf(u, o) == Policy(Idle, t.cluster.workloads);
  }

  lemma FatalConsTwice(env: Env, s: System, t: System, u: System, a: Step, b: Step, rest: seq<Step>)
    requires t == Next(env, s, a) && u == Next(env, t, b)
    requires IsController(a) && IsController(b) && !a.BeginHibernate? && !b.BeginHibernate? && Fatal(env, u, rest)
    ensures Fatal(env, s, [a] + ([b] + rest))
  {
    FatalCons(env, t, b, rest);
    FatalCons(env, s, a, [b] + rest);
  }

  /** o finishes and begins to wake the workload, p suspends the autoscaler after o restored it, and o clears. */
  lemma SuspendBetween(env: Env, s: System, ref: Ref, p: Owner, o: Owner) returns (rest: seq<Step>)
    requires Scene(s, ref) && p != o && Suspending(s, p, ref) && Suspending(s, o, ref)
    requires MarkedBy(s.cluster.workloads[ref], o)
    ensures Fatal(env, s, rest)
    ensures rest == [FinishHibernate(o, true), List(o), BeginWake(o, ref, true), FinishHibernate(p, true),
                     FinishWake(o, true)]
  {
    var a, b := FinishHibernate(o, true), List(o);
    var t, u := FinishesAndLists(env, s, ref, p, o);
    rest := SuspendBeforeClear(env, u, ref, p, o);
    FatalConsTwice(env, s, t, u, a, b, rest);
    rest := [a] + ([b] + rest);
  }

  lemma SuspendBeforeClear(env: Env, s: System, ref: Ref, p: Owner, o: Owner) returns (rest: seq<Step>)
    requires Scene(s, ref) && p != o && Suspending(s, p, ref)
    requires CanBegin(s, o, ref) && MarkedBy(PolicyOf(s, o).listing[ref], o)
    ensures Fatal(env, s, rest)
    ensures rest == [BeginWake(o, ref, true), FinishHibernate(p, true), FinishWake(o, true)]
  {
    var a := BeginWake(o, ref, true);
    RestoresScene(env, s, ref, o);
    SuspendThenClear(env, Next(env, s, a), ref, p, o);
    FatalCons(env, s, a, [FinishHibernate(p, true), FinishWake(o, true)]);
    rest := [a, FinishHibernate(p, true), FinishWake(o, true)];
    assert rest == [a] + [FinishHibernate(p, true), FinishWake(o, true)];
  }

  /** Beginning to wake the workload keeps its autoscaler there and all other policies where they are. */
  lemma RestoresScene(env: Env, s: System, ref: Ref, o: Owner)
    requires Scene(s, ref) && CanBegin(s, o, ref) && MarkedBy(PolicyOf(s, o).listing[ref], o)
    ensures var t := Next(env, s, BeginWake(o, ref, true));
            Scene(t, ref) && Clearing(t, o, ref) && forall p :: p != o ==> PolicyOf(t, p) == PolicyOf(s, p)
  {
    KindsApart(ref.kind);
    RestoreOk(env, s.cluster, ref, true);
    SameTargetsSameHpa(s.cluster, Next(env, s, BeginWake(o, ref, true)).cluster, ref, ref);
  }

  /** p suspends the autoscaler after o restored it and before o clears the workload. */
  lemma SuspendThenClear(env: Env, s: System, ref: Ref, p: Owner, o: Owner)
    requires Scene(s, ref) && p != o && Clearing(s, o, ref) && Suspending(s, p, ref)
    ensures Fatal(env, s, [FinishHibernate(p, true), FinishWake(o, true)])
  {
    var a, b := FinishHibernate(p, true), FinishWake(o, true);
    var t := Next(env, s, a);
    SuspendOk(env, s.cluster, ref, PcOf(s, p).target, true);
    var i :| 0 <= i < |s.cluster.hpas| && TargetRef(s.cluster.hpas[i]) == ref;
    assert Suspended(t.cluster.hpas[i]) && TargetRef(t.cluster.hpas[i]) == ref;
    assert PcOf(t, o) == PcOf(s, o);
    ClearingIsFatal(env, t, ref, o, i);
    FatalCons(env, s, a, [b]);
    assert [a] + [b] == [a, b];
  }

  lemma ClearingIsFatal(env: Env, s: System, ref: Ref, o: Owner, i: nat)
    requires Clearing(s, o, ref) && ref in s.cluster.workloads
    requires i < |s.cluster.hpas| && Suspended(s.cluster.hpas[i]) && TargetRef(s.cluster.hpas[i]) == ref
    ensures Fatal(env, s, [FinishWake(o, true)])
  {
    ClearingWakes(env, s, ref, o);
    assert Fatal(env, Next(env, s, FinishWake(o, true)), []);
    FatalCons(env, s, FinishWake(o, true), []);
    assert [FinishWake(o, true)] + [] == [FinishWake(o, true)];
  }

  /** p has the workload listed as its own and comes to it after finishing what it is in the middle of. */
  ghost predicate Waiting(s: System, ref: Ref, p: Owner) {
    && PcOk(s.cluster, p, PcOf(s, p)) && !Busy(PcOf(s, p), ref)
    && ref in PolicyOf(s, p).listing && MarkedBy(PolicyOf(s, p).listing[ref], p)
  }

  lemma SettleHibernate(env: Env, s: System, ref: Ref, p: Owner, o: Owner)
    requires Scene(s, ref) && p != o && Suspending(s, o, ref) && Waiting(s, ref, p) && PcOf(s, p).SuspendPending?
    ensures var t := Next(env, s, FinishHibernate(p, true));
            && Scene(t, ref) && Suspending(t, o, ref) && CanBegin(t, p, ref) && Waiting(t, ref, p)
            && t.cluster.workloads[ref] == s.cluster.workloads[ref]
  {
    var pc := PcOf(s, p);
    SuspendOk(env, s.cluster, pc.ref, pc.target, true);
    SameTargetsSameHpa(s.cluster, Next(env, s, FinishHibernate(p, true)).cluster, ref, pc.ref);
  }

  lemma ClearedClusterOk(env: Env, c: Cluster, p: Owner, pc: Pc)
    requires ClusterOk(c) && PcOk(c, p, pc) && pc.ClearPending?
    ensures ClusterOk(c.(workloads := c.workloads[pc.ref := Cleared(env, c, pc)]))
  {
    ClearedIsView(env, c, p, pc);
    ReplaceOk(env, c, pc.ref, Cleared(env, c, pc));
  }

  lemma SettlePut(s: System, ref: Ref, p: Owner, o: Owner, r: Ref, w: Workload)
    requires Scene(s, ref) && p != o && Suspending(s, o, ref) && Waiting(s, ref, p)
    requires r != ref && ClusterOk(PutWorkload(s, r, w).cluster)
    ensures var t := SetPolicy(PutWorkload(s, r, w), p, Policy(Idle, PolicyOf(s, p).listing));
            && Scene(t, ref) && Suspending(t, o, ref) && CanBegin(t, p, ref) && Waiting(t, ref, p)
            && t.cluster.workloads[ref] == s.cluster.workloads[ref]
  {
  }

  lemma ClearingStep(env: Env, s: System, p: Owner)
    requires PcOf(s, p).ClearPending? && PcOf(s, p).ref in s.cluster.workloads
    ensures Next(env, s, FinishWake(p, true))
            == SetPolicy(PutWorkload(s, PcOf(s, p).ref, Cleared(env, s.cluster, PcOf(s, p))), p,
              Policy(Idle, PolicyOf(s, p).listing))
  {
  }

  lemma SettleWake(env: Env, s: System, ref: Ref, p: Owner, o: Owner) returns (t: System)
    requires Scene(s, ref) && p != o && Suspending(s, o, ref) && Waiting(s, ref, p) && PcOf(s, p).ClearPending?
    ensures t == Next(env, s, FinishWake(p, true))
    ensures Scene(t, ref) && Suspending(t, o, ref) && CanBegin(t, p, ref) && Waiting(t, ref, p)
    ensures t.cluster.workloads[ref] == s.cluster.workloads[ref]
  {
    var r, w := PcOf(s, p).ref, Cleared(env, s.cluster, PcOf(s, p));
    ClearingStep(env, s, p);
    t := SetPolicy(PutWorkload(s, r, w), p, Policy(Idle, PolicyOf(s, p).listing));
    assert ClusterOk(PutWorkload(s, r, w).cluster) by {
      ClearedClusterOk(env, s.cluster, p, PcOf(s, p));
    }
    SettlePut(s, ref, p, o, r, w);
  }

  /** The step by which p finishes what it is in the middle of, if anything. */
  lemma Settles(env: Env, s: System, ref: Ref, p: Owner, o: Owner) returns (a: Step, t: System)
    requires Scene(s, ref) && p != o && Suspending(s, o, ref) && Waiting(s, ref, p) && !PcOf(s, p).Idle?
    ensures IsHarmless(env, s, a) && t == Next(env, s, a) && !a.BeginWake?
    ensures Scene(t, ref) && Suspending(t, o, ref) && CanBegin(t, p, ref) && Waiting(t, ref, p)
    ensures t.cluster.workloads[ref] == s.cluster.workloads[ref]
  {
    if PcOf(s, p).SuspendPending? {
      a := FinishHibernate(p, true);
      SettleHibernate(env, s, ref, p, o);
      t := Next(env, s, a);
    } else {
      a := FinishWake(p, true);
      t := SettleWake(env, s, ref, p, o);
    }
  }

  lemma WaitingIsFatal(env: Env, s: System, ref: Ref, p: Owner, o: Owner) returns (rest: seq<Step>)
    requires Scene(s, ref) && p != o && Suspending(s, o, ref) && Waiting(s, ref, p)
    ensures Fatal(env, s, rest)
  {
    if PcOf(s, p).Idle? {
      rest := WakeThenSuspend(env, s, ref, p, o);
    } else {
      var a, t := Settles(env, s, ref, p, o);
      rest := WakeThenSuspend(env, t, ref, p, o);
      FatalCons(env, s, a, rest);
      rest := [a] + rest;
    }
  }

  /** p, which lists the workload as its own to keep it asleep, turns to it and is to suspend its autoscaler again. */
  lemma HoldThenSuspend(env: Env, s: System, ref: Ref, p: Owner, o: Owner) returns (rest: seq<Step>)
    requires Scene(s, ref) && p != o && Suspending(s, o, ref) && MarkedBy(s.cluster.workloads[ref], o)
    requires CanBegin(s, p, ref) && MarkedBy(PolicyOf(s, p).listing[ref], p) && p.kind != ""
    ensures Fatal(env, s, rest)
    ensures forall i :: 0 <= i < |rest| && rest[i].BeginWake? ==> rest[i].owner == o
  {
    var a := BeginHibernate(p, ref, TO_ZERO, true);
    rest := SuspendBetween(env, Next(env, s, a), ref, p, o);
    FatalCons(env, s, a, rest);
    rest := [a] + rest;
  }

  /** So a claim by listing is fatal as well when the policy is hibernating and wakes nothing from its listing. */
  lemma HibernatingClaimIsFatal(env: Env, s: System, ref: Ref, p: Owner, o: Owner) returns (rest: seq<Step>)
    requires Scene(s, ref) && p != o && Suspending(s, o, ref) && Waiting(s, ref, p) && p.kind != ""
    requires MarkedBy(s.cluster.workloads[ref], o)
    ensures Fatal(env, s, rest)
    ensures forall i :: 0 <= i < |rest| && rest[i].BeginWake? ==> rest[i].owner != p
  {
    if PcOf(s, p).Idle? {
      rest := HoldThenSuspend(env, s, ref, p, o);
    } else {
      var a, t := Settles(env, s, ref, p, o);
      rest := HoldThenSuspend(env, t, ref, p, o);
      FatalCons(env, s, a, rest);
      rest := [a] + rest;
    }
  }

  // ---- Exactly when a late patch costs safety ----

  lemma LateMarkKeepsCluster(env: Env, s: System, step: Step)
    requires SystemOk(s) && ValidStep(step) && LandsLate(env, s, step)
    ensures var d := Next(env, s, step).cluster;
            && d.hpas == s.cluster.hpas && step.ref in d.workloads
            && d.workloads == s.cluster.workloads[step.ref := d.workloads[step.ref]]
            && MarkedBy(d.workloads[step.ref], step.owner) && ClusterOk(d)
  {
    var o, ref := step.owner, step.ref;
    assert ReadOk(s.cluster, o, ref, PolicyOf(s, o).listing[ref]);
    MarkMerges(env, ref, PolicyOf(s, o).listing[ref], s.cluster.workloads[ref], o, step.action);
    ReplaceOk(env, s.cluster, ref, Next(env, s, step).cluster.workloads[ref]);
  }

  lemma LateMarkKeepsPolicies(env: Env, s: System, step: Step)
    requires ValidStep(step) && LandsLate(env, s, step) && IsReplicaKind(step.ref.kind)
    ensures Suspending(Next(env, s, step), step.owner, step.ref)
    ensures forall p :: p != step.owner ==> PolicyOf(Next(env, s, step), p) == PolicyOf(s, p)
  {
  }

  /** What a claim on the workload comes to once another policy's patch has landed on it. */
  lemma ClaimAfterLateMark(s: System, t: System, ref: Ref, p: Owner)
    requires p in s.policies && PolicyOk(s.cluster, p, s.policies[p]) && Claims(s.policies[p], p, ref)
    requires PolicyOf(t, p) == PolicyOf(s, p) && t.cluster.hpas == s.cluster.hpas && ref in t.cluster.workloads
    requires ref in s.cluster.workloads && t.cluster.workloads == s.cluster.workloads[ref := t.cluster.workloads[ref]]
    ensures Clearing(t, p, ref) || Suspending(t, p, ref) || Waiting(t, ref, p)
  {
    var q := s.policies[p];
    if Busy(q.pc, ref) {
      if q.pc.ClearPending? {
        assert Get(q.pc.read.annotations, Hibernated) == Get(s.cluster.workloads[ref].annotations, Hibernated);
      }
    } else {
      assert q.pc.ClearPending? ==> NoneSuspendedFor(t.cluster, q.pc.ref);
    }
  }

  lemma ClaimIsFatal(env: Env, s: System, step: Step, p: Owner) returns (rest: seq<Step>)
    requires SystemOk(s) && ValidStep(step) && LandsLate(env, s, step) && IsReplicaKind(step.ref.kind)
    requires HasHpa(s.cluster, step.ref)
    requires p in s.policies && p != step.owner && Claims(s.policies[p], p, step.ref)
    ensures Fatal(env, Next(env, s, step), rest)
  {
    var t, o, ref := Next(env, s, step), step.owner, step.ref;
    LateMarkKeepsCluster(env, s, step);
    LateMarkKeepsPolicies(env, s, step);
    assert Scene(t, ref);
    ClaimAfterLateMark(s, t, ref, p);
    if Clearing(t, p, ref) {
      ClearThenSuspend(env, t, ref, p, o);
      rest := [FinishWake(p, true), FinishHibernate(o, true)];
    } else if Suspending(t, p, ref) {
      rest := SuspendBetween(env, t, ref, p, o);
    } else {
      rest := WaitingIsFatal(env, t, ref, p, o);
    }
  }

  /**
   * After a marking patch landed late on a workload that has an autoscaler, the controllers can lose safety without any
   * further patch landing so if and only if another policy was at work on that workload.
   */
  lemma ClaimDecides(env: Env, s: System, step: Step)
    requires SystemOk(s) && ValidStep(step) && LandsLate(env, s, step) && IsReplicaKind(step.ref.kind)
    requires HasHpa(s.cluster, step.ref)
    ensures Doomed(env, Next(env, s, step)) <==> ClaimedByOther(s, step.owner, step.ref)
  {
    if ClaimedByOther(s, step.owner, step.ref) {
      var p :| p in s.policies && p != step.owner && Claims(s.policies[p], p, step.ref);
      var rest := ClaimIsFatal(env, s, step, p);
      FatalMeansDoomed(env, Next(env, s, step), rest);
    } else {
      BeginHibernateOk(env, s, step);
      forall rest | ValidSteps(rest) && NoClaimTaken(env, Next(env, s, step), rest)
        ensures SuspendedImpliesMarked(Run(env, Next(env, s, step), rest).cluster)
      {
        RunOk(env, Next(env, s, step), rest);
      }
    }
  }

  // ---- Runs that go wrong ----

  lemma {:induction false} RunAppend(env: Env, s: System, some: seq<Step>, more: seq<Step>)
    ensures Run(env, s, some + more) == Run(env, Run(env, s, some), more)
  {
    if more == [] {
      assert some + more == some;
    } else {
      var n := |more| - 1;
      RunAppend(env, s, some, more[..n]);
      assert (some + more)[..|some + more| - 1] == some + more[..n];
    }
  }

  const TO_ZERO := Action(false, Some(0))

  /** One policy lists the workloads; then another puts one of them to sleep. */
  lemma FallAsleep(env: Env, c: Cluster, ref: Ref, a: Owner, b: Owner) returns (s: System)
    requires StartOk(c) && ref in c.workloads && IsReplicaKind(ref.kind) && Current(c.workloads[ref]) > 0
    requires HasHpa(c, ref)
    requires a != b && a.kind != ""
    ensures s == Run(env, System(c, map[]),
            [List(b), List(a), BeginHibernate(a, ref, TO_ZERO, true), FinishHibernate(a, true)])
    ensures SystemOk(s) && AsleepBy(s.cluster, ref, a) && PcOf(s, a) == Idle
    ensures PolicyOf(s, b) == Policy(Idle, c.workloads)
    ensures HasHpa(s.cluster, ref)
  {
    var s0 := System(c, map[]);
    var begin := BeginHibernate(a, ref, TO_ZERO, true);
    StartIsOk(c);
    var s1 := Next(env, s0, List(b));
    NextOk(env, s0, List(b));
    var s2 := Next(env, s1, List(a));
    NextOk(env, s1, List(a));
    assert PolicyOf(s2, a) == Policy(Idle, c.workloads) && PolicyOf(s2, b) == Policy(Idle, c.workloads)
           && s2.cluster == c;
    assert !Marked(c.workloads[ref]);
    var s3 := Next(env, s2, begin);
    MarksFresh(env, s2, begin);
    s := Next(env, s3, FinishHibernate(a, true));
    SuspendOk(env, s3.cluster, ref, 0, true);
    NextOk(env, s3, FinishHibernate(a, true));
    SameTargetsSameHpa(s3.cluster, s.cluster, ref, ref);
    RunOfFour(env, s0, List(b), List(a), begin, FinishHibernate(a, true));
  }

  lemma MarksFresh(env: Env, s: System, step: Step)
    requires SystemOk(s) && ValidStep(step) && Lands(env, s, step) && !LandsLate(env, s, step)
    requires IsReplicaKind(step.ref.kind)
    ensures var t := Next(env, s, step);
            && SystemOk(t) && AsleepBy(t.cluster, step.ref, step.owner) && t.cluster.hpas == s.cluster.hpas
            && PcOf(t, step.owner) == SuspendPending(step.ref, step.action.maxReplicas.value)
            && forall p :: p != step.owner ==> PolicyOf(t, p) == PolicyOf(s, p)
  {
    var o, ref := step.owner, step.ref;
    BeginHibernateOk(env, s, step);
    assert ReadOk(s.cluster, o, ref, PolicyOf(s, o).listing[ref]);
    MarkMerges(env, ref, PolicyOf(s, o).listing[ref], s.cluster.workloads[ref], o, step.action);
  }

  lemma RunOfFour(env: Env, s: System, a: Step, b: Step, c: Step, d: Step)
    ensures Run(env, s, [a, b, c, d]) == Next(env, Next(env, Next(env, Next(env, s, a), b), c), d)
  {
    var one, two, three, four := [a], [a, b], [a, b, c], [a, b, c, d];
    assert four[..3] == three && three[..2] == two && two[..1] == one && one[..0] == [];
    assert Run(env, s, one) == Next(env, s, a);
    assert Run(env, s, two) == Next(env, Next(env, s, a), b);
  }

  lemma BeginsToWake(env: Env, s: System, ref: Ref, a: Owner)
    requires SystemOk(s) && CanBegin(s, a, ref) && MarkedBy(PolicyOf(s, a).listing[ref], a)
    requires IsReplicaKind(ref.kind)
    ensures var t := NextWake(s, a, ref, true);
            && PcOf(t, a) == ClearPending(ref, PolicyOf(s, a).listing[ref])
            && t.cluster.workloads == s.cluster.workloads && (HasHpa(s.cluster, ref) ==> HasHpa(t.cluster, ref))
            && forall p :: p != a ==> PolicyOf(t, p) == PolicyOf(s, p)
  {
    KindsApart(ref.kind);
    RestoreOk(env, s.cluster, ref, true);
    if HasHpa(s.cluster, ref) {
      SameTargetsSameHpa(s.cluster, NextWake(s, a, ref, true).cluster, ref, ref);
    }
  }

  lemma ListsAgain(env: Env, s: System, a: Owner)
    requires SystemOk(s) && PcOf(s, a) == Idle
    ensures var l := Next(env, s, List(a));
            && SystemOk(l) && l.cluster == s.cluster && PolicyOf(l, a) == Policy(Idle, s.cluster.workloads)
            && forall p :: p != a ==> PolicyOf(l, p) == PolicyOf(s, p)
  {
    ListOk(env, s, List(a));
  }

  /** Its owner begins to wake it again. */
  lemma BeginToWake(env: Env, s: System, ref: Ref, a: Owner) returns (t: System)
    requires SystemOk(s) && AsleepBy(s.cluster, ref, a) && PcOf(s, a) == Idle && IsReplicaKind(ref.kind)
    ensures t == Next(env, Next(env, s, List(a)), BeginWake(a, ref, true))
    ensures SystemOk(t) && t.cluster.workloads == s.cluster.workloads
            && (HasHpa(s.cluster, ref) ==> HasHpa(t.cluster, ref))
    ensures PcOf(t, a) == ClearPending(ref, s.cluster.workloads[ref])
    ensures forall p :: p != a ==> PolicyOf(t, p) == PolicyOf(s, p)
  {
    ListsAgain(env, s, a);
    t := WakesListed(env, Next(env, s, List(a)), ref, a);
  }

  lemma WakingStep(env: Env, s: System, ref: Ref, a: Owner)
    requires CanBegin(s, a, ref)
    ensures Next(env, s, BeginWake(a, ref, true)) == NextWake(s, a, ref, true)
  {
  }

  lemma WakesListed(env: Env, l: System, ref: Ref, a: Owner) returns (t: System)
    requires SystemOk(l) && AsleepBy(l.cluster, ref, a) && PolicyOf(l, a) == Policy(Idle, l.cluster.workloads)
    requires IsReplicaKind(ref.kind)
    ensures t == Next(env, l, BeginWake(a, ref, true))
    ensures SystemOk(t) && t.cluster.workloads == l.cluster.workloads
            && (HasHpa(l.cluster, ref) ==> HasHpa(t.cluster, ref))
    ensures PcOf(t, a) == ClearPending(ref, l.cluster.workloads[ref])
    ensures forall p :: p != a ==> PolicyOf(t, p) == PolicyOf(l, p)
  {
    t := NextWake(l, a, ref, true);
    WakingStep(env, l, ref, a);
    BeginsToWake(env, l, ref, a);
    assert SystemOk(t) by {
      RestoringOk(env, l, a, ref, true);
    }
  }

  /**
   * From every cluster with an autoscaled workload: b lists it awake, a puts it to sleep and begins to wake it, b's
   * marking patch lands, a's clearing patch lands, b suspends. The workload is awake and its autoscaler suspended.
   */
  lemma StaleMarkBreaksSafety(env: Env, c: Cluster, ref: Ref, a: Owner, b: Owner)
    requires StartOk(c) && ref in c.workloads && IsReplicaKind(ref.kind) && Current(c.workloads[ref]) > 0
    requires HasHpa(c, ref)
    requires a != b && a.kind != "" && b.kind != ""
    ensures var steps := [List(b), List(a), BeginHibernate(a, ref, TO_ZERO, true), FinishHibernate(a, true)]
                         + [List(a), BeginWake(a, ref, true), BeginHibernate(b, ref, TO_ZERO, true)]
                         + [FinishWake(a, true), FinishHibernate(b, true)];
            !SuspendedImpliesMarked(Run(env, System(c, map[]), steps).cluster)
  {
    var s0 := System(c, map[]);
    var asleep := FallAsleep(env, c, ref, a, b);
    var waking := BeginToWake(env, asleep, ref, a);
    var late := BeginHibernate(b, ref, TO_ZERO, true);
    assert Lands(env, waking, late) by {
      assert PolicyOf(waking, b).listing[ref] == c.workloads[ref] && !Marked(c.workloads[ref]);
    }
    LateMarkKeepsCluster(env, waking, late);
    LateMarkKeepsPolicies(env, waking, late);
    var taken := Next(env, waking, late);
    assert Scene(taken, ref);
    ClearThenSuspend(env, taken, ref, a, b);
    FatalRun(env, taken, [FinishWake(a, true), FinishHibernate(b, true)]);
    var first := [List(b), List(a), BeginHibernate(a, ref, TO_ZERO, true), FinishHibernate(a, true)];
    var next := [List(a), BeginWake(a, ref, true), late];
    RunAppend(env, s0, first + next, [FinishWake(a, true), FinishHibernate(b, true)]);
    RunAppend(env, s0, first, next);
    RunOfThreeSteps(env, asleep, List(a), BeginWake(a, ref, true), late);
  }

  lemma RunOfThreeSteps(env: Env, s: System, a: Step, b: Step, c: Step)
    ensures Run(env, s, [a, b, c]) == Next(env, Next(env, Next(env, s, a), b), c)
  {
    var one, two, three := [a], [a, b], [a, b, c];
    assert three[..2] == two && two[..1] == one && one[..0] == [];
    assert Run(env, s, one) == Next(env, s, a);
  }

  // ---- Counts that go wrong ----

  lemma MarksCount(env: Env, s: System, o: Owner, ref: Ref)
    requires SystemOk(s) && CanBegin(s, o, ref) && IsReplicaKind(ref.kind) && o.kind != ""
    requires !Marked(s.cluster.workloads[ref]) && !Marked(PolicyOf(s, o).listing[ref])
    requires Current(PolicyOf(s, o).listing[ref]) > 0
    ensures var t := Next(env, s, BeginHibernate(o, ref, TO_ZERO, true));
            SystemOk(t) && AsleepBy(t.cluster, ref, o)
              && SavedReplicas(t.cluster.workloads[ref]) == Current(PolicyOf(s, o).listing[ref])
  {
    var step := BeginHibernate(o, ref, TO_ZERO, true);
    MarksFresh(env, s, step);
    assert ReadOk(s.cluster, o, ref, PolicyOf(s, o).listing[ref]);
    MarkMerges(env, ref, PolicyOf(s, o).listing[ref], s.cluster.workloads[ref], o, TO_ZERO);
  }

  /**
   * A rescale between reading an awake workload and marking it is lost: the count read is saved and written back on
   * waking, although the workload was last awake with another.
   */
  lemma RescaleLostToMark(env: Env, c: Cluster, ref: Ref, o: Owner, n: int)
    requires StartOk(c) && ref in c.workloads && IsReplicaKind(ref.kind) && Current(c.workloads[ref]) > 0
    requires o.kind != "" && IsCount(n)
    ensures var d := Run(env, System(c, map[]),
            [List(o), Rescale(ref, n), BeginHibernate(o, ref, TO_ZERO, true)]).cluster;
            AsleepBy(d, ref, o) && SavedReplicas(d.workloads[ref]) == Current(c.workloads[ref])
  {
    var s0, mark := System(c, map[]), BeginHibernate(o, ref, TO_ZERO, true);
    StartIsOk(c);
    ListsAgain(env, s0, o);
    var s1 := Next(env, s0, List(o));
    var s2 := Next(env, s1, Rescale(ref, n));
    EditOk(env, s1, Rescale(ref, n));
    assert !Marked(c.workloads[ref]) && !Marked(s2.cluster.workloads[ref]);
    MarksCount(env, s2, o, ref);
    RunOfThreeSteps(env, s0, List(o), Rescale(ref, n), mark);
  }

  lemma RescaleStep(env: Env, s: System, ref: Ref, n: int)
    requires SystemOk(s) && ref in s.cluster.workloads && IsCount(n)
    ensures var t := Next(env, s, Rescale(ref, n));
            && SystemOk(t) && t.policies == s.policies && ref in t.cluster.workloads
            && t.cluster.workloads[ref] == s.cluster.workloads[ref].(replicas := Some(n))
  {
    EditOk(env, s, Rescale(ref, n));
  }

  lemma AbandonStep(env: Env, s: System, o: Owner)
    requires SystemOk(s)
    ensures var t := Next(env, s, Abandon(o));
            SystemOk(t) && t.cluster == s.cluster && PcOf(t, o) == Idle
  {
    AbandonOk(env, s, Abandon(o));
  }

  lemma SleepThenRescale(env: Env, c: Cluster, ref: Ref, o: Owner) returns (s: System)
    requires StartOk(c) && ref in c.workloads && IsReplicaKind(ref.kind) && Current(c.workloads[ref]) > 0
    requires o.kind != ""
    ensures var n := Current(c.workloads[ref]);
            && s == Run(env, System(c, map[]),
               [List(o), BeginHibernate(o, ref, TO_ZERO, true), Abandon(o), Rescale(ref, n)])
            && SystemOk(s) && AsleepBy(s.cluster, ref, o) && PcOf(s, o) == Idle
            && s.cluster.workloads[ref].replicas == Some(n) && SavedReplicas(s.cluster.workloads[ref]) == n
  {
    var s0, mark, n := System(c, map[]), BeginHibernate(o, ref, TO_ZERO, true), Current(c.workloads[ref]);
    StartIsOk(c);
    assert !Marked(c.workloads[ref]) && IsCount(n);
    var s1 := Next(env, s0, List(o));
    var s2 := Next(env, s1, mark);
    var s3 := Next(env, s2, Abandon(o));
    s := Next(env, s3, Rescale(ref, n));
    RunOfFour(env, s0, List(o), mark, Abandon(o), Rescale(ref, n));
    ListsAgain(env, s0, o);
    MarksCount(env, s1, o, ref);
    AbandonStep(env, s2, o);
    RescaleStep(env, s3, ref, n);
  }

  /**
   * A rescale between reading a sleeping workload and clearing it survives the wake when the count read was the saved
   * one: put to sleep from count m, scaled back to m, and scaled to n while its owner wakes it, the workload wakes with
   * n.
   */
  lemma RescaleSurvivesWake(env: Env, c: Cluster, ref: Ref, o: Owner, n: int)
    requires StartOk(c) && ref in c.workloads && IsReplicaKind(ref.kind) && Current(c.workloads[ref]) > 0
    requires o.kind != "" && IsCount(n)
    ensures var m := Current(c.workloads[ref]);
            var steps := [List(o), BeginHibernate(o, ref, TO_ZERO, true), Abandon(o), Rescale(ref, m)]
                         + [List(o), BeginWake(o, ref, true), Rescale(ref, n), FinishWake(o, true)];
            var d := Run(env, System(c, map[]), steps).cluster;
            ref in d.workloads && !Marked(d.workloads[ref]) && d.workloads[ref].replicas == Some(n)
  {
    var s := SleepThenRescale(env, c, ref, o);
    var t := BeginToWake(env, s, ref, o);
    var u := Next(env, t, Rescale(ref, n));
    ClearingUnmarks(env, ref, PcOf(u, o).read, u.cluster.workloads[ref]);
    KindsApart(ref.kind);
    ClearingStep(env, u, o);
    RunOfFour(env, s, List(o), BeginWake(o, ref, true), Rescale(ref, n), FinishWake(o, true));
    RunAppend(env, System(c, map[]),
      [List(o), BeginHibernate(o, ref, TO_ZERO, true), Abandon(o), Rescale(ref, Current(c.workloads[ref]))],
              [List(o), BeginWake(o, ref, true), Rescale(ref, n), FinishWake(o, true)]);
  }
}
