/** What a successful call achieves, and that repeating a call that broke off finishes it as if it had never failed. */
module Convergence {
  import opened Options
  import opened Cluster
  import opened Autoscalers
  import opened Hibernation

  /** The autoscaler can no longer take the workload above the cap: pinned to it, or parked away from the workload. */
  ghost predicate Held(h: Hpa, ref: Ref, cap: int) {
    if cap == 0 then !Matches(h, ref) else Matches(h, ref) && h.min == Some(cap) && h.max == cap
  }

  /** A successful suspension holds the autoscaler of the workload, if there is one, at the cap. */
  lemma SuspendHolds(env: Env, c: Cluster, ref: Ref, cap: int)
    requires ClusterOk(c) && ref in c.workloads && IsReplicaKind(ref.kind) && Marked(c.workloads[ref]) && IsCount(cap)
    ensures var r := Suspend(env, c, ref, cap, true);
            && !r.failed
            && |r.cluster.hpas| == |c.hpas|
            && forall i :: 0 <= i < |c.hpas| && TargetRef(c.hpas[i]) == ref && !Suspended(c.hpas[i]) ==>
                 Held(r.cluster.hpas[i], ref, cap)
                 && (cap == 0 ==> r.cluster.hpas[i].min == c.hpas[i].min && r.cluster.hpas[i].max == c.hpas[i].max)
  {
    FindHpaFinds(c, ref);
    assert WorkloadOk(ref, c.workloads[ref]);
    DetachedNameIsParked(env.hash, ref.kind, ref.name);
  }

  /**
   * A successful hibernate of an awake workload sleeps it exactly when it is above the cap; then it runs at the cap,
   * is marked by the policy, and its autoscaler is held. At or below the cap nothing changes at all.
   */
  lemma HibernateCaps(env: Env, c: Cluster, ref: Ref, action: Action, o: Owner)
    requires ClusterOk(c) && ref in c.workloads && IsReplicaKind(ref.kind) && !Marked(c.workloads[ref]) && o.kind != ""
    requires action.maxReplicas.Some? && IsCount(action.maxReplicas.value)
    ensures var cap := action.maxReplicas.value;
            var r := HibernateWorkload(env, c, ref, action, o, true, true);
            && !r.failed
            && (r.reported <==> Current(c.workloads[ref]) > cap)
            && (!r.reported ==> r.cluster == c)
            && (r.reported ==>
              && ref in r.cluster.workloads && r.cluster.workloads[ref].replicas == Some(cap)
              && Marked(r.cluster.workloads[ref]) && OwnerOf(r.cluster.workloads[ref]) == o
              && |r.cluster.hpas| == |c.hpas|
              && forall i :: 0 <= i < |c.hpas| && TargetRef(c.hpas[i]) == ref ==> Held(r.cluster.hpas[i], ref, cap))
  {
    var w, cap := c.workloads[ref], action.maxReplicas.value;
    if Current(w) > cap {
      SleepsHeld(env, c, c.(workloads := c.workloads[ref := SleepReplicas(w, o, cap)]), ref, o, cap);
    }
  }

  lemma SleepsHeld(env: Env, c: Cluster, d: Cluster, ref: Ref, o: Owner, cap: int)
    requires ClusterOk(c) && ref in c.workloads && IsReplicaKind(ref.kind) && !Marked(c.workloads[ref])
    requires o.kind != "" && IsCount(cap)
    requires d == c.(workloads := c.workloads[ref := SleepReplicas(c.workloads[ref], o, cap)])
    ensures Marked(d.workloads[ref]) && OwnerOf(d.workloads[ref]) == o
    ensures var r := Suspend(env, d, ref, cap, true);
            && !r.failed && r.cluster.workloads == d.workloads && |r.cluster.hpas| == |c.hpas|
            && forall i :: 0 <= i < |c.hpas| && TargetRef(c.hpas[i]) == ref ==> Held(r.cluster.hpas[i], ref, cap)
  {
    SleepReplicasOk(env, ref, c.workloads[ref], o, cap);
    ReplaceOk(env, c, ref, SleepReplicas(c.workloads[ref], o, cap));
    SuspendHolds(env, d, ref, cap);
    SuspendKeepsWorkloads(env, d, ref, cap, true);
    assert forall i :: 0 <= i < |c.hpas| && TargetRef(c.hpas[i]) == ref ==> !Suspended(c.hpas[i]);
  }

  /** A daemon set sleeps when the action asks for it: it moves to labelled nodes and is marked by the policy. */
  lemma HibernateMovesDaemonSet(env: Env, c: Cluster, ref: Ref, action: Action, o: Owner, labels: map<string, string>)
    requires ref in c.workloads && ref.kind == "DaemonSet" && !Marked(c.workloads[ref])
    ensures var r := HibernateWorkload(env, c, ref, action, o, true, true);
            && !r.failed && r.cluster.hpas == c.hpas
            && (r.reported <==> action.sleepDaemonSet)
            && (!r.reported ==> r.cluster == c)
            && (r.reported ==>
              && ref in r.cluster.workloads && OwnerOf(r.cluster.workloads[ref]) == o
              && r.cluster.workloads[ref].annotations[Hibernated] == "true"
              && r.cluster.workloads[ref].replicas == c.workloads[ref].replicas
              && (Fits(r.cluster.workloads[ref].selector, labels)
                  <==> "greencosts.hstr.nl/hibernate" in labels && labels["greencosts.hstr.nl/hibernate"] == "true"))
  {
    KindsApart(ref.kind);
    AsleepRunsOnLabelledNodes(env, c.workloads[ref], o, labels);
  }

  /** There is nothing to do for a workload that is gone or of a kind the controllers do not handle. */
  lemma NothingToHandle(env: Env, c: Cluster, ref: Ref, action: Action, o: Owner, first: bool, second: bool)
    requires ref !in c.workloads || ref.kind !in {"Deployment", "StatefulSet", "DaemonSet", "ReplicaSet"}
    ensures HibernateWorkload(env, c, ref, action, o, first, second) == Report(c, false, false)
    ensures WakeWorkload(env, c, ref, o, first, second) == Outcome(c, false)
  {
  }

  // ---- Retrying ----

  /** Suspending again after a success changes nothing. */
  lemma SuspendTwice(env: Env, c: Cluster, ref: Ref, cap: int, ok: bool)
    requires ClusterOk(c) && ref in c.workloads && IsReplicaKind(ref.kind) && Marked(c.workloads[ref]) && IsCount(cap)
    ensures Suspend(env, Suspend(env, c, ref, cap, ok).cluster, ref, cap, true) == Suspend(env, c, ref, cap, true)
  {
    var d := Suspend(env, c, ref, cap, ok).cluster;
    SuspendOk(env, c, ref, cap, ok);
    FindHpaFinds(c, ref);
    FindHpaFinds(d, ref);
    var r := FindHpa(c.hpas, ref);
    if r.Some? && ok {
      assert TargetRef(c.hpas[r.value]) == ref;
    }
  }

  /** Restoring again after a success changes nothing. */
  lemma RestoreTwice(env: Env, c: Cluster, ref: Ref, ok: bool)
    requires ClusterOk(c) && ref in c.workloads
    ensures Restore(Restore(c, ref, ok).cluster, ref, true) == Restore(c, ref, true)
  {
    var d := Restore(c, ref, ok).cluster;
    RestoreOk(env, c, ref, ok);
    FindForRestoreFinds(c, ref);
    FindForRestoreFinds(d, ref);
  }

  /** A hibernate that broke off anywhere, repeated without failures, ends exactly where an undisturbed one does. */
  lemma HibernateConverges(env: Env, c: Cluster, ref: Ref, action: Action, o: Owner, first: bool, second: bool)
    requires ValidEnv(env) && ClusterOk(c) && o.kind != ""
    requires action.maxReplicas.Some? ==> IsCount(action.maxReplicas.value)
    ensures var once := HibernateWorkload(env, c, ref, action, o, first, second);
            HibernateWorkload(env, once.cluster, ref, action, o, true, true).cluster
            == HibernateWorkload(env, c, ref, action, o, true, true).cluster
  {
    KindsApart(ref.kind);
    if ref in c.workloads && IsReplicaKind(ref.kind) {
      var w := c.workloads[ref];
      if Marked(w) {
        if OwnedBy(w, o) && action.maxReplicas.Some? {
          SuspendTwice(env, c, ref, action.maxReplicas.value, first);
          SuspendKeepsWorkloads(env, c, ref, action.maxReplicas.value, first);
        }
      } else if ComputeTargetReplicas(action, Current(w)).Some? && first {
        MarkedConverges(env, c, ref, action, o, second);
      }
    } else if ref in c.workloads && ref.kind == DAEMON_SET && !Marked(c.workloads[ref]) {
      assert Marked(SleepDaemon(env, c.workloads[ref], o));
    }
  }

  lemma SuspendKeepsWorkloads(env: Env, c: Cluster, ref: Ref, cap: int, ok: bool)
    ensures Suspend(env, c, ref, cap, ok).cluster.workloads == c.workloads
  {
  }

  lemma MarkedConverges(env: Env, c: Cluster, ref: Ref, action: Action, o: Owner, second: bool)
    requires ClusterOk(c) && ref in c.workloads && IsReplicaKind(ref.kind) && !Marked(c.workloads[ref]) && o.kind != ""
    requires action.maxReplicas.Some? && IsCount(action.maxReplicas.value)
    requires Current(c.workloads[ref]) > action.maxReplicas.value
    ensures var once := HibernateWorkload(env, c, ref, action, o, true, second);
            HibernateWorkload(env, once.cluster, ref, action, o, true, true).cluster
            == HibernateWorkload(env, c, ref, action, o, true, true).cluster
  {
    var cap, slept := action.maxReplicas.value, SleepReplicas(c.workloads[ref], o, action.maxReplicas.value);
    var d := c.(workloads := c.workloads[ref := slept]);
    SleepReplicasOk(env, ref, c.workloads[ref], o, cap);
    ReplaceOk(env, c, ref, slept);
    SuspendTwice(env, d, ref, cap, second);
    SuspendKeepsWorkloads(env, d, ref, cap, second);
    assert OwnedBy(slept, o);
  }

  /** A wake that broke off anywhere, repeated without failures, ends exactly where an undisturbed one does. */
  lemma WakeConverges(env: Env, c: Cluster, ref: Ref, o: Owner, first: bool, second: bool)
    requires ClusterOk(c)
    ensures WakeWorkload(env, WakeWorkload(env, c, ref, o, first, second).cluster, ref, o, true, true).cluster
            == WakeWorkload(env, c, ref, o, true, true).cluster
  {
    KindsApart(ref.kind);
    if ref in c.workloads && Marked(c.workloads[ref]) && OwnedBy(c.workloads[ref], o) {
      assert WorkloadOk(ref, c.workloads[ref]);
      WakeFormIsView(env, ref, c.workloads[ref]);
      RestoreTwice(env, c, ref, first);
      RestoreOk(env, c, ref, first);
      RestoreOk(env, c, ref, true);
    }
  }
}
