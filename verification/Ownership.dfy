/**
 * Policies keep out of each other's way, the controllers' calls are runs of the protocol, and the exact
 * conditions outside which the protocol's promises fail.
 */
module Ownership {
  import opened Options
  import opened Cluster
  import opened Autoscalers
  import opened Hibernation
  import opened Protocol

  // ---- Non-interference ----

  /** The workload and its autoscaler are the same in both clusters. */
  ghost predicate Untroubled(c: Cluster, d: Cluster, ref: Ref) {
    && ref in c.workloads && ref in d.workloads && d.workloads[ref] == c.workloads[ref]
    && |c.hpas| == |d.hpas|
    && forall i :: 0 <= i < |c.hpas| && TargetRef(c.hpas[i]) == ref ==> d.hpas[i] == c.hpas[i]
  }

  lemma FinishHibernateLeavesOthersAlone(env: Env, s: System, step: Step, ref: Ref, p: Owner)
    requires SystemOk(s) && step.FinishHibernate? && step.owner != p && AsleepBy(s.cluster, ref, p)
    ensures Untroubled(s.cluster, Next(env, s, step).cluster, ref)
  {
    var pc := PcOf(s, step.owner);
    if pc.SuspendPending? {
      assert PcOk(s.cluster, step.owner, pc);
      SuspendOk(env, s.cluster, pc.ref, pc.target, step.ok);
      assert pc.ref != ref;
    }
  }

  lemma BeginWakeLeavesOthersAlone(env: Env, s: System, step: Step, ref: Ref, p: Owner)
    requires SystemOk(s) && step.BeginWake? && step.owner != p && AsleepBy(s.cluster, ref, p)
    ensures Untroubled(s.cluster, Next(env, s, step).cluster, ref)
  {
    var r, q := step.ref, PolicyOf(s, step.owner);
    if CanBegin(s, step.owner, r) && r.kind != DAEMON_SET {
      assert ReadOk(s.cluster, step.owner, r, q.listing[r]);
      assert MarkedBy(q.listing[r], step.owner) ==> r != ref;
      if r != ref {
        RestoreLeavesOthersAlone(env, s.cluster, r, ref, step.ok);
      }
    }
  }

  lemma RestoreLeavesOthersAlone(env: Env, c: Cluster, r: Ref, ref: Ref, ok: bool)
    requires ClusterOk(c) && r in c.workloads && ref in c.workloads && r != ref
    ensures Untroubled(c, Restore(c, r, ok).cluster, ref)
  {
    RestoreOk(env, c, r, ok);
  }

  lemma StepLeavesOthersAlone(env: Env, s: System, step: Step, ref: Ref, p: Owner)
    requires SystemOk(s) && IsController(step) && step.owner != p && AsleepBy(s.cluster, ref, p)
    requires !LandsLate(env, s, step)
    ensures Untroubled(s.cluster, Next(env, s, step).cluster, ref)
  {
    if step.FinishHibernate? {
      FinishHibernateLeavesOthersAlone(env, s, step, ref, p);
    } else if step.BeginWake? {
      BeginWakeLeavesOthersAlone(env, s, step, ref, p);
    } else if step.FinishWake? && PcOf(s, step.owner).ClearPending? {
      assert PcOk(s.cluster, step.owner, PcOf(s, step.owner));
    }
  }

  /**
   * A whole run in which p takes no step and no marking patch lands late leaves p's sleeping workloads and their
   * autoscalers exactly as they were.
   */
  lemma {:induction false} RunLeavesOthersAlone(env: Env, s: System, steps: seq<Step>, ref: Ref, p: Owner)
    requires SystemOk(s) && ValidSteps(steps) && AsleepBy(s.cluster, ref, p) && NoneLate(env, s, steps)
    requires forall i :: 0 <= i < |steps| ==> IsController(steps[i]) && steps[i].owner != p
    ensures Untroubled(s.cluster, Run(env, s, steps).cluster, ref)
  {
    if steps != [] {
      var n := |steps| - 1;
      RunLeavesOthersAlone(env, s, steps[..n], ref, p);
      NoneLateNoClaimTaken(env, s, steps[..n]);
      RunOk(env, s, steps[..n]);
      StepLeavesOthersAlone(env, Run(env, s, steps[..n]), steps[n], ref, p);
      SameTargets(s.cluster, Run(env, s, steps[..n]).cluster, ref);
    }
  }

  lemma SameTargets(c: Cluster, d: Cluster, ref: Ref)
    requires Untroubled(c, d, ref)
    ensures forall i :: 0 <= i < |c.hpas| && TargetRef(c.hpas[i]) == ref ==> TargetRef(d.hpas[i]) == ref
  {
  }

  lemma WakingReleasesOwn(env: Env, s: System, step: Step, ref: Ref, p: Owner)
    requires SystemOk(s) && step.FinishWake? && AsleepBy(s.cluster, ref, p)
    ensures AsleepBy(Next(env, s, step).cluster, ref, p) <==>
              !(step == FinishWake(p, true) && PcOf(s, p).ClearPending? && PcOf(s, p).ref == ref)
    ensures AsleepBy(Next(env, s, step).cluster, ref, p) || !Marked(Next(env, s, step).cluster.workloads[ref])
  {
    var pc := PcOf(s, step.owner);
    if step.ok && pc.ClearPending? {
      assert PcOk(s.cluster, step.owner, pc);
      assert Get(pc.read.annotations, Hibernated) == Get(s.cluster.workloads[pc.ref].annotations, Hibernated);
      ClearingUnmarks(env, pc.ref, pc.read, s.cluster.workloads[pc.ref]);
    }
  }

  lemma SameMarksSameOwner(c: Cluster, d: Cluster, ref: Ref, p: Owner)
    requires AsleepBy(c, ref, p) && ref in d.workloads
    requires SameMarks(c.workloads[ref].annotations, d.workloads[ref].annotations)
    ensures AsleepBy(d, ref, p)
  {
    assert forall k: Key :: !k.User? ==> Get(c.workloads[ref].annotations, k) == Get(d.workloads[ref].annotations, k);
  }

  lemma OtherStepsKeepMarks(env: Env, s: System, step: Step, ref: Ref)
    requires !step.FinishWake? && ref in s.cluster.workloads && Marked(s.cluster.workloads[ref])
    requires !(LandsLate(env, s, step) && step.ref == ref)
    ensures ref in Next(env, s, step).cluster.workloads
    ensures SameMarks(s.cluster.workloads[ref].annotations, Next(env, s, step).cluster.workloads[ref].annotations)
  {
    if step.FinishHibernate? || step.BeginWake? || step.Rebound? || step.Abandon? || step.List? {
      assert Next(env, s, step).cluster.workloads == s.cluster.workloads;
    }
  }

  /** What a late marking patch does: it takes the workload over from its owner and saves the count read before. */
  lemma LateMarkTakesOver(env: Env, s: System, step: Step)
    requires SystemOk(s) && ValidStep(step) && LandsLate(env, s, step)
    ensures var live, v := s.cluster.workloads[step.ref], Next(env, s, step).cluster.workloads[step.ref];
            && Marked(live) && OwnerOf(live) != step.owner && MarkedBy(v, step.owner)
            && (IsReplicaKind(step.ref.kind) ==> SavedReplicas(v) == Current(PolicyOf(s, step.owner).listing[step.ref]))
  {
    var read := PolicyOf(s, step.owner).listing[step.ref];
    assert ReadOk(s.cluster, step.owner, step.ref, read);
    MarkMerges(env, step.ref, read, s.cluster.workloads[step.ref], step.owner, step.action);
  }

  /**
   * Whatever anyone does, a sleeping workload loses its owner only when that owner finishes waking it or a marking
   * patch lands on it late.
   */
  lemma OnlyOwnerReleases(env: Env, s: System, step: Step, ref: Ref, p: Owner)
    requires SystemOk(s) && ValidStep(step) && AsleepBy(s.cluster, ref, p)
    ensures AsleepBy(Next(env, s, step).cluster, ref, p) <==>
              !(step == FinishWake(p, true) && PcOf(s, p).ClearPending? && PcOf(s, p).ref == ref)
              && !(LandsLate(env, s, step) && step.ref == ref)
  {
    if step.FinishWake? {
      WakingReleasesOwn(env, s, step, ref, p);
    } else if LandsLate(env, s, step) && step.ref == ref {
      LateMarkTakesOver(env, s, step);
    } else {
      OtherStepsKeepMarks(env, s, step, ref);
      SameMarksSameOwner(s.cluster, Next(env, s, step).cluster, ref, p);
    }
  }

  lemma {:induction false} OwnerStaysUntilOwnWake(env: Env, s: System, steps: seq<Step>, ref: Ref, p: Owner)
    requires SystemOk(s) && ValidSteps(steps) && AsleepBy(s.cluster, ref, p) && NoneLate(env, s, steps)
    requires FinishWake(p, true) !in steps
    ensures AsleepBy(Run(env, s, steps).cluster, ref, p)
  {
    if steps != [] {
      var n := |steps| - 1;
      OwnerStaysUntilOwnWake(env, s, steps[..n], ref, p);
      NoneLateNoClaimTaken(env, s, steps[..n]);
      RunOk(env, s, steps[..n]);
      OnlyOwnerReleases(env, Run(env, s, steps[..n]), steps[n], ref, p);
    }
  }

  // ---- Exactly when ownership is respected ----

  /** Some sleeping workload passes from one policy to another without having been awake. */
  ghost predicate TakesOver(c: Cluster, d: Cluster) {
    exists ref, p, q :: p != q && AsleepBy(c, ref, p) && AsleepBy(d, ref, q)
  }

  lemma LateIffTakesOver(env: Env, s: System, step: Step)
    requires SystemOk(s) && ValidStep(step)
    ensures LandsLate(env, s, step) <==> TakesOver(s.cluster, Next(env, s, step).cluster)
  {
    var d := Next(env, s, step).cluster;
    if LandsLate(env, s, step) {
      LateMarkTakesOver(env, s, step);
      assert AsleepBy(s.cluster, step.ref, OwnerOf(s.cluster.workloads[step.ref])) && AsleepBy(d, step.ref, step.owner);
    } else {
      forall ref, p, q | AsleepBy(s.cluster, ref, p) && AsleepBy(d, ref, q)
        ensures p == q
      {
        OnlyOwnerReleases(env, s, step, ref, p);
        if step.FinishWake? {
          WakingReleasesOwn(env, s, step, ref, p);
        }
      }
    }
  }

  ghost predicate OwnersRespected(env: Env, s: System, steps: seq<Step>) {
    steps == [] ||
    (OwnersRespected(env, s, steps[..|steps| - 1])
     && !TakesOver(Run(env, s, steps[..|steps| - 1]).cluster, Run(env, s, steps).cluster))
  }

  /** Over a whole run no policy takes over another's sleeping workload if and only if no marking patch lands late. */
  lemma {:induction false} OwnersRespectedIff(env: Env, s: System, steps: seq<Step>)
    requires SystemOk(s) && ValidSteps(steps)
    ensures OwnersRespected(env, s, steps) <==> NoneLate(env, s, steps)
  {
    if steps != [] {
      var n := |steps| - 1;
      OwnersRespectedIff(env, s, steps[..n]);
      if NoneLate(env, s, steps[..n]) {
        NoneLateNoClaimTaken(env, s, steps[..n]);
        RunOk(env, s, steps[..n]);
        LateIffTakesOver(env, Run(env, s, steps[..n]), steps[n]);
      }
    }
  }

  // ---- The controllers' calls are runs of the protocol ----

  function HibernateSteps(c: Cluster, ref: Ref, action: Action, o: Owner, first: bool, second: bool): seq<Step> {
    if ref in c.workloads && Marked(c.workloads[ref]) then
      [List(o), BeginHibernate(o, ref, action, true), FinishHibernate(o, first)]
    else
      [List(o), BeginHibernate(o, ref, action, first), FinishHibernate(o, second)]
  }

  function WakeSteps(ref: Ref, o: Owner, first: bool, second: bool): seq<Step> {
    [List(o), BeginWake(o, ref, first), FinishWake(o, second)]
  }

  /** A policy that has just read everything. */
  ghost predicate JustListed(s: System, o: Owner) {
    PolicyOf(s, o) == Policy(Idle, s.cluster.workloads)
  }

  lemma JustListedIsPrompt(env: Env, s: System, o: Owner, a: Step)
    requires JustListed(s, o) && (IsController(a) ==> a.owner == o)
    ensures !LandsLate(env, s, a)
  {
    if a.BeginHibernate? && CanBegin(s, o, a.ref) {
      assert PolicyOf(s, o).listing[a.ref] == s.cluster.workloads[a.ref];
    }
  }

  /** A call that reads the workload itself is three steps, and its marking patch is never late. */
  lemma RunOfCall(env: Env, s: System, o: Owner, a: Step, b: Step)
    requires PcOf(s, o) == Idle && (IsController(a) ==> a.owner == o) && !b.BeginHibernate?
    ensures JustListed(Next(env, s, List(o)), o) && Next(env, s, List(o)).cluster == s.cluster
    ensures Run(env, s, [List(o), a, b]) == Next(env, Next(env, Next(env, s, List(o)), a), b)
    ensures NoneLate(env, s, [List(o), a, b])
  {
    var l := List(o);
    var one, two, three := [l], [l, a], [l, a, b];
    assert three[..2] == two && two[..1] == one && one[..0] == [];
    assert Run(env, s, one) == Next(env, s, l) && NoneLate(env, s, one[..0]);
    assert NoneLate(env, s, one);
    assert Run(env, s, two) == Next(env, Next(env, s, l), a);
    JustListedIsPrompt(env, Next(env, s, l), o, a);
    assert NoneLate(env, s, two);
  }

  lemma HibernateAfterListing(env: Env, s: System, ref: Ref, action: Action, o: Owner, a: bool, b: bool)
    requires JustListed(s, o)
    ensures var t := Next(env, Next(env, s, BeginHibernate(o, ref, action, a)), FinishHibernate(o, b));
            var marked := ref in s.cluster.workloads && Marked(s.cluster.workloads[ref]);
            HibernateWorkload(env, s.cluster, ref, action, o, if marked then b else a, b).cluster == t.cluster
  {
    KindsApart(ref.kind);
    if ref in s.cluster.workloads {
      var w := s.cluster.workloads[ref];
      var want := WantedMark(env, ref, w, o, action);
      if want.Some? {
        MergeFresh(w, want.value);
      }
    }
  }

  /** Each call of hibernateWorkload, with any of its patches failing, is a read and two steps of the protocol. */
  lemma HibernateIsRun(env: Env, s: System, ref: Ref, action: Action, o: Owner, first: bool, second: bool)
    requires PcOf(s, o) == Idle
    ensures HibernateWorkload(env, s.cluster, ref, action, o, first, second).cluster
            == Run(env, s, HibernateSteps(s.cluster, ref, action, o, first, second)).cluster
    ensures NoneLate(env, s, HibernateSteps(s.cluster, ref, action, o, first, second))
  {
    var steps := HibernateSteps(s.cluster, ref, action, o, first, second);
    RunOfCall(env, s, o, steps[1], steps[2]);
    HibernateAfterListing(env, Next(env, s, List(o)), ref, action, o, steps[1].ok, steps[2].ok);
    if ref in s.cluster.workloads && Marked(s.cluster.workloads[ref]) {
      OnePatchOnly(env, s.cluster, ref, action, o, first, second);
    }
  }

  /** Of a workload that is marked already only one patch is sent. */
  lemma OnePatchOnly(env: Env, c: Cluster, ref: Ref, action: Action, o: Owner, first: bool, second: bool)
    requires ref in c.workloads && Marked(c.workloads[ref])
    ensures HibernateWorkload(env, c, ref, action, o, first, second)
            == HibernateWorkload(env, c, ref, action, o, first, first)
  {
  }

  lemma WakeAfterListing(env: Env, s: System, ref: Ref, o: Owner, first: bool, second: bool)
    requires JustListed(s, o)
    requires ref in s.cluster.workloads ==> IsReplicaKind(ref.kind) || ref.kind == DAEMON_SET
    ensures WakeWorkload(env, s.cluster, ref, o, first, second).cluster
            == Next(env, Next(env, s, BeginWake(o, ref, first)), FinishWake(o, second)).cluster
  {
    if ref in s.cluster.workloads {
      MergeFresh(s.cluster.workloads[ref], WakeForm(env, ref.kind, s.cluster.workloads[ref]));
    }
  }

  /** Each call of wakeWorkload is too: its clearing patch is computed from what it read first. */
  lemma WakeIsRun(env: Env, s: System, ref: Ref, o: Owner, first: bool, second: bool)
    requires PcOf(s, o) == Idle
    requires ref in s.cluster.workloads ==> IsReplicaKind(ref.kind) || ref.kind == DAEMON_SET
    ensures WakeWorkload(env, s.cluster, ref, o, first, second).cluster
            == Run(env, s, WakeSteps(ref, o, first, second)).cluster
    ensures NoneLate(env, s, WakeSteps(ref, o, first, second))
  {
    var steps := WakeSteps(ref, o, first, second);
    RunOfCall(env, s, o, steps[1], steps[2]);
    WakeAfterListing(env, Next(env, s, List(o)), ref, o, first, second);
  }

  lemma StepsOfCall(c: Cluster, ref: Ref, action: Action, o: Owner, first: bool, second: bool)
    requires o.kind != "" && (action.maxReplicas.Some? ==> IsCount(action.maxReplicas.value))
    ensures var steps := HibernateSteps(c, ref, action, o, first, second);
            ValidSteps(steps) && forall i :: 0 <= i < |steps| ==> IsController(steps[i]) && steps[i].owner == o
  {
  }

  /** A call of another policy, for whichever workload, leaves p's sleeping workload and its autoscaler alone. */
  lemma HibernateLeavesOthersAlone(env: Env, c: Cluster, ref: Ref, p: Owner, other: Ref, action: Action, o: Owner,
                                   first: bool, second: bool)
    requires ClusterOk(c) && AsleepBy(c, ref, p) && o != p && o.kind != ""
    requires action.maxReplicas.Some? ==> IsCount(action.maxReplicas.value)
    ensures Untroubled(c, HibernateWorkload(env, c, other, action, o, first, second).cluster, ref)
  {
    var s := System(c, map[]);
    HibernateIsRun(env, s, other, action, o, first, second);
    StepsOfCall(c, other, action, o, first, second);
    assert SystemOk(s);
    RunLeavesOthersAlone(env, s, HibernateSteps(c, other, action, o, first, second), ref, p);
  }

  lemma WakeLeavesOthersAlone(env: Env, c: Cluster, ref: Ref, p: Owner, other: Ref, o: Owner, first: bool, second: bool)
    requires ClusterOk(c) && AsleepBy(c, ref, p) && o != p
    ensures Untroubled(c, WakeWorkload(env, c, other, o, first, second).cluster, ref)
  {
    var s := System(c, map[]);
    if other in c.workloads {
      assert WorkloadOk(other, c.workloads[other]);
    }
    WakeIsRun(env, s, other, o, first, second);
    RunLeavesOthersAlone(env, s, WakeSteps(other, o, first, second), ref, p);
  }

  // ---- Where the promises end ----

  /**
   * With more than one autoscaler the lookup may find the wrong one. A failure-free wake leaves no autoscaler
   * of the workload suspended if and only if each suspended one is the one the lookup finds.
   */
  lemma WakeRestoresAllIff(env: Env, c: Cluster, ref: Ref, o: Owner)
    requires ref in c.workloads && IsReplicaKind(ref.kind) && AsleepBy(c, ref, o)
    requires forall i :: 0 <= i < |c.hpas| ==> HpaOk(c.hpas[i])
    ensures var d := WakeWorkload(env, c, ref, o, true, true).cluster;
            NoneSuspendedFor(d, ref) <==>
            forall i :: 0 <= i < |c.hpas| && TargetRef(c.hpas[i]) == ref && Suspended(c.hpas[i]) ==>
                FindForRestore(c.hpas, ref) == Some(i)
  {
    KindsApart(ref.kind);
    var d := WakeWorkload(env, c, ref, o, true, true).cluster;
    var r := FindForRestore(c.hpas, ref);
    if r.Some? && Suspended(c.hpas[r.value]) {
      assert HpaOk(c.hpas[r.value]);
      RestoredFormIsView(c.hpas[r.value]);
    }
    forall i | 0 <= i < |c.hpas|
      ensures r == Some(i) && Suspended(c.hpas[i]) ==>
                !Suspended(d.hpas[i]) && TargetRef(d.hpas[i]) == TargetRef(c.hpas[i])
      ensures r != Some(i) ==> d.hpas[i] == c.hpas[i]
    {
    }
  }

  lemma FindInPair(g: Hpa, h: Hpa, ref: Ref)
    ensures FindHpa([g, h], ref) == if Matches(g, ref) then Some(0) else if Matches(h, ref) then Some(1) else None
    ensures FindSuspendedHpa([g, h], ref)
            == if MatchesSaved(g, ref) then Some(0) else if MatchesSaved(h, ref) then Some(1) else None
  {
    var pair := [g, h];
    assert pair[0] == g && pair[1] == h && |pair| == 2;
  }

  /** The three calls on a pair of autoscalers of one workload: park the first, park the second, restore the first. */
  lemma ParkPair(env: Env, ref: Ref, g: Hpa, h: Hpa, ws: map<Ref, Workload>)
    requires Matches(g, ref) && Matches(h, ref) && !Suspended(g) && !Suspended(h)
    requires ref.name != "" && !IsParkedName(ref.name)
    requires IsCount(g.min.GetOr(1)) && IsCount(h.min.GetOr(1))
    ensures var g', h' := SuspendedForm(env, g, 0), SuspendedForm(env, h, 0);
            && Suspend(env, Cluster(ws, [g, h]), ref, 0, true) == Outcome(Cluster(ws, [g', h]), false)
            && Suspend(env, Cluster(ws, [g', h]), ref, 0, true) == Outcome(Cluster(ws, [g', h']), false)
            && Restore(Cluster(ws, [g', h']), ref, true) == Outcome(Cluster(ws, [RestoredForm(g'), h']), false)
            && Suspended(h') && TargetRef(h') == ref
  {
    var g', h' := SuspendedForm(env, g, 0), SuspendedForm(env, h, 0);
    CountRoundTrip(g.min.GetOr(1));
    CountRoundTrip(h.min.GetOr(1));
    DetachedNameIsParked(env.hash, ref.kind, ref.name);
    FindInPair(g, h, ref);
    FindInPair(g', h, ref);
    FindInPair(g', h', ref);
    assert [g, h][0 := g'] == [g', h] && [g', h][1 := h'] == [g', h']
           && [g', h'][0 := RestoredForm(g')] == [RestoredForm(g'), h'];
  }

  /**
   * So a second autoscaler breaks safety: two reconciles to zero park both, and the wake brings back only the first.
   */
  lemma SecondAutoscalerStaysSuspended(env: Env, ref: Ref, o: Owner, w: Workload, g: Hpa, h: Hpa)
    requires o.kind != "" && ref.kind == DEPLOYMENT && WorkloadOk(ref, w) && !Marked(w) && Current(w) > 0
    requires HpaOk(g) && HpaOk(h) && Matches(g, ref) && Matches(h, ref) && !Suspended(g) && !Suspended(h)
    ensures var toZero := Action(false, Some(0));
            var once := HibernateWorkload(env, Cluster(map[ref := w], [g, h]), ref, toZero, o, true, true);
            var twice := HibernateWorkload(env, once.cluster, ref, toZero, o, true, true);
            var woken := WakeWorkload(env, twice.cluster, ref, o, true, true);
            && !once.failed && !twice.failed && !woken.failed
            && !SuspendedImpliesMarked(woken.cluster)
  {
    var asleep := SleepReplicas(w, o, 0);
    SleepReplicasOk(env, ref, w, o, 0);
    KindsApart(ref.kind);
    assert map[ref := w][ref := asleep] == map[ref := asleep];
    ParkPair(env, ref, g, h, map[ref := asleep]);
    var g', h' := SuspendedForm(env, g, 0), SuspendedForm(env, h, 0);
    AwakeBesideSuspended(env, ref, asleep, RestoredForm(g'), h');
  }

  lemma AwakeBesideSuspended(env: Env, ref: Ref, asleep: Workload, g: Hpa, h: Hpa)
    requires WorkloadOk(ref, asleep) && Marked(asleep) && Suspended(h) && TargetRef(h) == ref && ref.kind != DAEMON_SET
    ensures !SuspendedImpliesMarked(Cluster(map[ref := asleep][ref := WakeReplicas(asleep)], [g, h]))
  {
    WakeFormIsView(env, ref, asleep);
    var woken := Cluster(map[ref := asleep][ref := WakeReplicas(asleep)], [g, h]);
    assert woken.hpas[1] == h && !Marked(woken.workloads[ref]);
  }
}
