/**
 * Putting one workload to sleep and waking it, as both hibernation controllers do it, and what a cluster
 * must satisfy for the saved originals to mean something.
 */
module Hibernation {
  import opened Options
  import opened Text
  import opened Cluster
  import opened Autoscalers

  const HIBERNATE_SELECTOR: Selector := Some(map["greencosts.hstr.nl/hibernate" := TRUE_VALUE])

  /** computeTargetReplicas: the cap, when there is one and the workload is above it. */
  function ComputeTargetReplicas(action: Action, current: int): Option<int> {
    if action.maxReplicas.Some? && current > action.maxReplicas.value then action.maxReplicas else None
  }

  function Current(w: Workload): int {
    w.replicas.GetOr(1)
  }

  function SleepReplicas(w: Workload, o: Owner, target: int): Workload {
    w.(replicas := Some(target),
       annotations := MarkHibernated(w.annotations[OriginalReplicas := Itoa(Current(w))], o))
  }

  function SleepDaemon(env: Env, w: Workload, o: Owner): Workload {
    w.(selector := HIBERNATE_SELECTOR,
       annotations := MarkHibernated(w.annotations[OriginalNodeSelector := env.encode(w.selector)], o))
  }

  function SavedReplicas(w: Workload): int {
    ParseOriginalReplicas(Get(w.annotations, OriginalReplicas))
  }

  /** A missing or unreadable saved selector restores as none. */
  function SavedSelector(env: Env, w: Workload): Selector {
    var s := Get(w.annotations, OriginalNodeSelector);
    if s == "" then None else env.decode(s).GetOr(None)
  }

  /** A saved selector comes back when its text can be read; nothing or anything else saved gives back none. */
  lemma SavedSelectorIff(env: Env, w: Workload, s: Selector)
    requires s.Some?
    ensures SavedSelector(env, w) == s
            <==> OriginalNodeSelector in w.annotations && w.annotations[OriginalNodeSelector] != ""
                 && env.decode(w.annotations[OriginalNodeSelector]) == Some(s)
  {
  }

  /** The pods of a daemon set run on the nodes whose labels contain its selector. */
  predicate Fits(selector: Selector, labels: map<string, string>) {
    selector.Some? ==> forall k :: k in selector.value ==> k in labels && labels[k] == selector.value[k]
  }

  /** Asleep, a daemon set runs on the nodes that are labelled for it, which no node needs to be. */
  lemma AsleepRunsOnLabelledNodes(env: Env, w: Workload, o: Owner, labels: map<string, string>)
    ensures Fits(SleepDaemon(env, w, o).selector, labels)
            <==> "greencosts.hstr.nl/hibernate" in labels && labels["greencosts.hstr.nl/hibernate"] == "true"
  {
    var s := HIBERNATE_SELECTOR.value;
    assert "greencosts.hstr.nl/hibernate" in s;
  }

  function WakeReplicas(w: Workload): Workload {
    w.(replicas := Some(ToInt32(SavedReplicas(w))),
       annotations := ClearHibernated(w.annotations) - {OriginalReplicas})
  }

  function WakeDaemon(env: Env, w: Workload): Workload {
    w.(selector := SavedSelector(env, w),
       annotations := ClearHibernated(w.annotations) - {OriginalNodeSelector})
  }

  function WakeForm(env: Env, kind: string, w: Workload): Workload {
    if kind == DAEMON_SET then WakeDaemon(env, w) else WakeReplicas(w)
  }

  datatype Report = Report(cluster: Cluster, reported: bool, failed: bool)

  /**
   * hibernateWorkload: the cluster afterwards, whether the workload counts as hibernated, and whether an
   * error was returned. first and second say whether the first and second patch of the call succeed.
   */
  function HibernateWorkload(env: Env, c: Cluster, ref: Ref, action: Action, o: Owner,
                             first: bool, second: bool): Report {
    if IsReplicaKind(ref.kind) then
      if ref !in c.workloads then Report(c, false, false)
      else
        var w := c.workloads[ref];
        if Marked(w) then
          if !OwnedBy(w, o) then Report(c, false, false)
          else if action.maxReplicas.None? then Report(c, true, false)
          else
            var s := Suspend(env, c, ref, action.maxReplicas.value, first);
            Report(s.cluster, true, s.failed)
        else
          match ComputeTargetReplicas(action, Current(w))
          case None => Report(c, false, false)
          case Some(target) =>
            if !first then Report(c, false, true)
            else
              var s := Suspend(env, c.(workloads := c.workloads[ref := SleepReplicas(w, o, target)]), ref,
                target, second);
              Report(s.cluster, true, s.failed)
    else if ref.kind == DAEMON_SET then
      if !action.sleepDaemonSet || ref !in c.workloads then Report(c, false, false)
      else
        var w := c.workloads[ref];
        if Marked(w) then Report(c, OwnedBy(w, o), false)
        else if !first then Report(c, true, true)
        else Report(c.(workloads := c.workloads[ref := SleepDaemon(env, w, o)]), true, false)
    else Report(c, false, false)
  }

  /** wakeWorkload: first is the autoscaler's patch when there is one to restore, second the workload's own. */
  function WakeWorkload(env: Env, c: Cluster, ref: Ref, o: Owner, first: bool, second: bool): Outcome {
    if !(IsReplicaKind(ref.kind) || ref.kind == DAEMON_SET) || ref !in c.workloads then Outcome(c, false)
    else
      var w := c.workloads[ref];
      if !Marked(w) || !OwnedBy(w, o) then Outcome(c, false)
      else
        var r := if ref.kind == DAEMON_SET then Outcome(c, false) else Restore(c, ref, first);
        if r.failed then r
        else if !second then Outcome(r.cluster, true)
        else Outcome(r.cluster.(workloads := r.cluster.workloads[ref := WakeForm(env, ref.kind, w)]), false)
  }

  /**
   * A workload is reported hibernated exactly when it ends marked by the calling policy, or by none, and its kind is
   * one the action covers; besides, a daemon set counts as hibernated when the patch that should mark it is refused.
   */
  lemma ReportedIff(env: Env, c: Cluster, ref: Ref, action: Action, o: Owner, first: bool, second: bool)
    ensures var r := HibernateWorkload(env, c, ref, action, o, first, second);
            r.reported
            <==> ref in r.cluster.workloads
                 && (ref.kind in {"Deployment", "StatefulSet", "ReplicaSet"}
                     || (ref.kind == "DaemonSet" && action.sleepDaemonSet))
                 && ((Marked(r.cluster.workloads[ref]) && OwnedBy(r.cluster.workloads[ref], o))
                     || (ref.kind == "DaemonSet" && r.failed))
  {
    KindsApart(ref.kind);
  }

  // ---- What the saved values mean, and when they are sound ----

  /** The workload as its user configured it, whether or not it sleeps now. */
  datatype WorkloadView = WorkloadView(replicas: int, selector: Selector, user: Annotations)

  ghost function ViewWorkload(env: Env, kind: string, w: Workload): WorkloadView {
    WorkloadView(
      if Marked(w) && IsReplicaKind(kind) then SavedReplicas(w) else Current(w),
      if Marked(w) && kind == DAEMON_SET then SavedSelector(env, w) else w.selector,
      UserPart(w.annotations))
  }

  /** The user's whole configuration, recovered through the annotations of everything asleep. */
  datatype View = View(workloads: map<Ref, WorkloadView>, hpas: seq<HpaView>)

  ghost function ViewOf(env: Env, c: Cluster): View {
    View(map ref | ref in c.workloads :: ViewWorkload(env, ref.kind, c.workloads[ref]),
         seq(|c.hpas|, i requires 0 <= i < |c.hpas| => ViewHpa(c.hpas[i])))
  }

  function OriginalKey(kind: string): Key {
    if kind == DAEMON_SET then OriginalNodeSelector else OriginalReplicas
  }

  /** A supported workload under a real name; its marker, if any, names an owner and its saved count is a count. */
  ghost predicate WorkloadOk(ref: Ref, w: Workload) {
    && (IsReplicaKind(ref.kind) || ref.kind == DAEMON_SET)
    && ref.name != "" && !IsParkedName(ref.name)
    && (w.replicas.Some? ==> IsCount(w.replicas.value))
    && (!Marked(w) ==> NoControllerKeys(w.annotations))
    && (Marked(w) ==>
      && OwnerOf(w).kind != ""
      && (IsReplicaKind(ref.kind) ==> IsCount(SavedReplicas(w)))
      && forall k :: k in w.annotations ==>
           k.User? || k in {Hibernated, ByKind, ByName, ByNamespace, OriginalKey(ref.kind)})
  }

  /** No workload has two autoscalers, counting the ones parked away from it. */
  ghost predicate OneHpaEach(c: Cluster) {
    forall i, j :: 0 <= i < j < |c.hpas| ==>
        TargetRef(c.hpas[i]) != TargetRef(c.hpas[j]) || TargetRef(c.hpas[i]) !in c.workloads
  }

  /** A suspended autoscaler belongs to a workload that is marked hibernated. */
  ghost predicate SuspendedImpliesMarked(c: Cluster) {
    forall i :: 0 <= i < |c.hpas| && Suspended(c.hpas[i]) ==>
      TargetRef(c.hpas[i]) in c.workloads && IsReplicaKind(TargetRef(c.hpas[i]).kind)
      && Marked(c.workloads[TargetRef(c.hpas[i])])
  }

  /** Everything saved can be put back: what one wake needs, also after safety was lost. */
  ghost predicate Intact(c: Cluster) {
    && (forall ref :: ref in c.workloads ==> WorkloadOk(ref, c.workloads[ref]))
    && (forall i :: 0 <= i < |c.hpas| ==> HpaOk(c.hpas[i]))
    && OneHpaEach(c)
    && forall i :: 0 <= i < |c.hpas| && Suspended(c.hpas[i]) ==>
         TargetRef(c.hpas[i]) in c.workloads && IsReplicaKind(TargetRef(c.hpas[i]).kind)
  }

  ghost predicate ClusterOk(c: Cluster) {
    Intact(c) && SuspendedImpliesMarked(c)
  }

  /** Where the controllers start: nothing carries one of their annotations. */
  ghost predicate Untouched(c: Cluster) {
    && (forall ref :: ref in c.workloads ==> NoControllerKeys(c.workloads[ref].annotations))
    && (forall i :: 0 <= i < |c.hpas| ==> NoControllerKeys(c.hpas[i].annotations))
  }

  lemma KindsApart(kind: string)
    ensures IsReplicaKind(kind) ==> kind != DAEMON_SET
    ensures IsReplicaKind(kind) ==> kind != ""
  {
    assert |DEPLOYMENT| == 10 && |STATEFUL_SET| == 11 && |REPLICA_SET| == 10 && |DAEMON_SET| == 9;
  }

  // ---- The workload's own patches ----

  lemma SleepReplicasOk(env: Env, ref: Ref, w: Workload, o: Owner, target: int)
    requires WorkloadOk(ref, w) && !Marked(w) && IsReplicaKind(ref.kind) && o.kind != "" && IsCount(target)
    ensures WorkloadOk(ref, SleepReplicas(w, o, target))
    ensures Marked(SleepReplicas(w, o, target)) && OwnerOf(SleepReplicas(w, o, target)) == o
    ensures ViewWorkload(env, ref.kind, SleepReplicas(w, o, target)) == ViewWorkload(env, ref.kind, w)
  {
    KindsApart(ref.kind);
    CountRoundTrip(Current(w));
    assert UserPart(SleepReplicas(w, o, target).annotations) == UserPart(w.annotations);
  }

  lemma SleepDaemonOk(env: Env, ref: Ref, w: Workload, o: Owner)
    requires ValidEnv(env)
    requires WorkloadOk(ref, w) && !Marked(w) && ref.kind == DAEMON_SET && o.kind != ""
    ensures WorkloadOk(ref, SleepDaemon(env, w, o))
    ensures Marked(SleepDaemon(env, w, o)) && OwnerOf(SleepDaemon(env, w, o)) == o
    ensures ViewWorkload(env, ref.kind, SleepDaemon(env, w, o)) == ViewWorkload(env, ref.kind, w)
  {
    KindsApart(ref.kind);
    assert UserPart(SleepDaemon(env, w, o).annotations) == UserPart(w.annotations);
  }

  /** A workload that is awake and configured exactly as the view says, an unset replica count written out as 1. */
  ghost predicate IsAwakeAs(kind: string, w: Workload, v: WorkloadView) {
    && (IsReplicaKind(kind) ==> w.replicas == Some(v.replicas))
    && w.selector == v.selector
    && w.annotations == v.user
  }

  lemma WakeFormIsView(env: Env, ref: Ref, w: Workload)
    requires WorkloadOk(ref, w) && Marked(w)
    ensures IsAwakeAs(ref.kind, WakeForm(env, ref.kind, w), ViewWorkload(env, ref.kind, w))
    ensures WorkloadOk(ref, WakeForm(env, ref.kind, w)) && !Marked(WakeForm(env, ref.kind, w))
    ensures ViewWorkload(env, ref.kind, WakeForm(env, ref.kind, w)) == ViewWorkload(env, ref.kind, w)
  {
    KindsApart(ref.kind);
    var v := WakeForm(env, ref.kind, w);
    assert v.annotations == UserPart(w.annotations);
    assert UserPart(v.annotations) == UserPart(w.annotations);
  }

  // ---- Finding the autoscaler ----

  /**
   * In an intact cluster the lookup before restoring finds the one autoscaler meant for the workload, parked or not.
   */
  lemma FindForRestoreFinds(c: Cluster, ref: Ref)
    requires Intact(c) && ref in c.workloads
    ensures FindForRestore(c.hpas, ref).Some? ==> TargetRef(c.hpas[FindForRestore(c.hpas, ref).value]) == ref
    ensures forall i :: 0 <= i < |c.hpas| && TargetRef(c.hpas[i]) == ref ==> FindForRestore(c.hpas, ref) == Some(i)
  {
    assert WorkloadOk(ref, c.workloads[ref]);
    KindsApart(ref.kind);
    assert ref.kind != "" by { assert |DAEMON_SET| == 9; }
    forall i | 0 <= i < |c.hpas|
      ensures Matches(c.hpas[i], ref) || MatchesSaved(c.hpas[i], ref) ==> TargetRef(c.hpas[i]) == ref
      ensures TargetRef(c.hpas[i]) == ref ==> Matches(c.hpas[i], ref) || MatchesSaved(c.hpas[i], ref)
    {
      assert HpaOk(c.hpas[i]);
    }
    var r := FindForRestore(c.hpas, ref);
    if r.Some? {
      assert TargetRef(c.hpas[r.value]) == ref;
    }
  }

  /** The lookup before suspending finds it exactly when it is not parked. */
  lemma FindHpaFinds(c: Cluster, ref: Ref)
    requires Intact(c) && ref in c.workloads
    ensures FindHpa(c.hpas, ref).Some? ==>
              TargetRef(c.hpas[FindHpa(c.hpas, ref).value]) == ref && !Detached(c.hpas[FindHpa(c.hpas, ref).value])
    ensures forall i :: 0 <= i < |c.hpas| && TargetRef(c.hpas[i]) == ref && !Suspended(c.hpas[i]) ==>
              FindHpa(c.hpas, ref) == Some(i)
  {
    assert WorkloadOk(ref, c.workloads[ref]);
    var r := FindHpa(c.hpas, ref);
    if r.Some? {
      assert HpaOk(c.hpas[r.value]);
    }
    forall i | 0 <= i < |c.hpas| && TargetRef(c.hpas[i]) == ref && !Suspended(c.hpas[i])
      ensures r == Some(i)
    {
      assert Matches(c.hpas[i], ref);
    }
  }

  // ---- The autoscaler's patches ----

  /** Every autoscaler is still meant for the same workload, and all but the one of ref are untouched. */
  ghost predicate OnlyHpaOf(before: Cluster, after: Cluster, ref: Ref) {
    && |after.hpas| == |before.hpas|
    && forall i :: 0 <= i < |before.hpas| ==>
         TargetRef(after.hpas[i]) == TargetRef(before.hpas[i])
         && (TargetRef(before.hpas[i]) == ref || after.hpas[i] == before.hpas[i])
  }

  ghost predicate MarkedBy(w: Workload, o: Owner) {
    Marked(w) && OwnerOf(w) == o
  }

  ghost predicate AsleepBy(c: Cluster, ref: Ref, o: Owner) {
    ref in c.workloads && MarkedBy(c.workloads[ref], o)
  }

  ghost predicate NoneSuspendedFor(c: Cluster, ref: Ref) {
    forall i :: 0 <= i < |c.hpas| && TargetRef(c.hpas[i]) == ref ==> !Suspended(c.hpas[i])
  }

  /** Replacing one autoscaler by a sound one with the same view keeps the cluster intact and the view unchanged. */
  lemma ReplaceHpaIntact(env: Env, c: Cluster, i: nat, h: Hpa)
    requires Intact(c) && i < |c.hpas| && HpaOk(h)
    requires h.namespace == c.hpas[i].namespace && ViewHpa(h) == ViewHpa(c.hpas[i])
    requires Suspended(h) ==> TargetRef(h) in c.workloads && IsReplicaKind(TargetRef(h).kind)
    ensures Intact(c.(hpas := c.hpas[i := h]))
    ensures ViewOf(env, c.(hpas := c.hpas[i := h])) == ViewOf(env, c)
    ensures OnlyHpaOf(c, c.(hpas := c.hpas[i := h]), TargetRef(c.hpas[i]))
  {
    var d := c.(hpas := c.hpas[i := h]);
    assert forall j :: 0 <= j < |d.hpas| ==> TargetRef(d.hpas[j]) == TargetRef(c.hpas[j]);
  }

  /** Suspending keeps the cluster intact and the view unchanged, whether or not the workload is still marked. */
  lemma SuspendIntact(env: Env, c: Cluster, ref: Ref, target: int, ok: bool)
    requires Intact(c) && ref in c.workloads && IsReplicaKind(ref.kind) && IsCount(target)
    ensures Intact(Suspend(env, c, ref, target, ok).cluster)
    ensures ViewOf(env, Suspend(env, c, ref, target, ok).cluster) == ViewOf(env, c)
    ensures Suspend(env, c, ref, target, ok).cluster.workloads == c.workloads
    ensures OnlyHpaOf(c, Suspend(env, c, ref, target, ok).cluster, ref)
    ensures ok ==> !Suspend(env, c, ref, target, ok).failed
    ensures !Suspend(env, c, ref, target, ok).failed ==>
              forall i :: 0 <= i < |c.hpas| && TargetRef(c.hpas[i]) == ref ==>
                  Suspended(Suspend(env, c, ref, target, ok).cluster.hpas[i])
  {
    FindHpaFinds(c, ref);
    var r := FindHpa(c.hpas, ref);
    if r.Some? && !Suspended(c.hpas[r.value]) {
      assert HpaOk(c.hpas[r.value]) && WorkloadOk(ref, c.workloads[ref]);
      SuspendedFormKeepsView(env, c.hpas[r.value], target);
      if ok {
        ReplaceHpaIntact(env, c, r.value, SuspendedForm(env, c.hpas[r.value], target));
      }
    }
  }

  /** It keeps the cluster sound, provided the workload is marked. */
  lemma SuspendOk(env: Env, c: Cluster, ref: Ref, target: int, ok: bool)
    requires ClusterOk(c) && ref in c.workloads && IsReplicaKind(ref.kind) && Marked(c.workloads[ref])
    requires IsCount(target)
    ensures ClusterOk(Suspend(env, c, ref, target, ok).cluster)
    ensures ViewOf(env, Suspend(env, c, ref, target, ok).cluster) == ViewOf(env, c)
    ensures Suspend(env, c, ref, target, ok).cluster.workloads == c.workloads
    ensures OnlyHpaOf(c, Suspend(env, c, ref, target, ok).cluster, ref)
    ensures ok ==> !Suspend(env, c, ref, target, ok).failed
    ensures !Suspend(env, c, ref, target, ok).failed ==>
              forall i :: 0 <= i < |c.hpas| && TargetRef(c.hpas[i]) == ref ==>
                  Suspended(Suspend(env, c, ref, target, ok).cluster.hpas[i])
  {
    SuspendIntact(env, c, ref, target, ok);
    StaysSafe(c, Suspend(env, c, ref, target, ok).cluster, ref);
  }

  lemma StaysSafe(c: Cluster, d: Cluster, ref: Ref)
    requires ClusterOk(c) && Intact(d) && OnlyHpaOf(c, d, ref) && d.workloads == c.workloads
    requires ref in c.workloads && (Marked(c.workloads[ref]) || NoneSuspendedFor(d, ref))
    ensures ClusterOk(d)
  {
    forall i | 0 <= i < |d.hpas| && Suspended(d.hpas[i])
      ensures Marked(d.workloads[TargetRef(d.hpas[i])])
    {
      assert TargetRef(d.hpas[i]) == TargetRef(c.hpas[i]);
    }
  }

  lemma RestoreIntact(env: Env, c: Cluster, ref: Ref, ok: bool)
    requires Intact(c) && ref in c.workloads
    ensures Intact(Restore(c, ref, ok).cluster)
    ensures ViewOf(env, Restore(c, ref, ok).cluster) == ViewOf(env, c)
    ensures Restore(c, ref, ok).cluster.workloads == c.workloads
    ensures OnlyHpaOf(c, Restore(c, ref, ok).cluster, ref)
    ensures ok ==> !Restore(c, ref, ok).failed
    ensures !Restore(c, ref, ok).failed ==> NoneSuspendedFor(Restore(c, ref, ok).cluster, ref)
    ensures !Restore(c, ref, ok).failed ==>
              forall i :: 0 <= i < |c.hpas| && TargetRef(c.hpas[i]) == ref && Suspended(c.hpas[i]) ==>
                IsAsConfigured(Restore(c, ref, ok).cluster.hpas[i], ViewHpa(c.hpas[i]))
  {
    FindForRestoreFinds(c, ref);
    var r := FindForRestore(c.hpas, ref);
    if r.Some? && Suspended(c.hpas[r.value]) {
      assert HpaOk(c.hpas[r.value]);
      RestoredFormIsView(c.hpas[r.value]);
      if ok {
        ReplaceHpaIntact(env, c, r.value, RestoredForm(c.hpas[r.value]));
      }
    }
  }

  lemma RestoreOk(env: Env, c: Cluster, ref: Ref, ok: bool)
    requires ClusterOk(c) && ref in c.workloads
    ensures ClusterOk(Restore(c, ref, ok).cluster)
    ensures ViewOf(env, Restore(c, ref, ok).cluster) == ViewOf(env, c)
    ensures Restore(c, ref, ok).cluster.workloads == c.workloads
    ensures OnlyHpaOf(c, Restore(c, ref, ok).cluster, ref)
    ensures ok ==> !Restore(c, ref, ok).failed
    ensures !Restore(c, ref, ok).failed ==> NoneSuspendedFor(Restore(c, ref, ok).cluster, ref)
    ensures !Restore(c, ref, ok).failed ==>
              forall i :: 0 <= i < |c.hpas| && TargetRef(c.hpas[i]) == ref && Suspended(c.hpas[i]) ==>
                IsAsConfigured(Restore(c, ref, ok).cluster.hpas[i], ViewHpa(c.hpas[i]))
  {
    RestoreIntact(env, c, ref, ok);
    if !Restore(c, ref, ok).failed {
      StaysSafe(c, Restore(c, ref, ok).cluster, ref);
    }
  }

  /** Replacing one workload by a sound one with the same view keeps the cluster intact and the view unchanged. */
  lemma ReplaceIntact(env: Env, c: Cluster, ref: Ref, w: Workload)
    requires Intact(c) && ref in c.workloads && WorkloadOk(ref, w)
    ensures Intact(c.(workloads := c.workloads[ref := w]))
    ensures ViewWorkload(env, ref.kind, w) == ViewWorkload(env, ref.kind, c.workloads[ref]) ==>
              ViewOf(env, c.(workloads := c.workloads[ref := w])) == ViewOf(env, c)
  {
    assert c.workloads[ref := w].Keys == c.workloads.Keys;
  }

  /** And sound, when it stays marked or has no suspended autoscaler. */
  lemma ReplaceOk(env: Env, c: Cluster, ref: Ref, w: Workload)
    requires ClusterOk(c) && ref in c.workloads && WorkloadOk(ref, w)
    requires Marked(w) || NoneSuspendedFor(c, ref)
    ensures ClusterOk(c.(workloads := c.workloads[ref := w]))
    ensures ViewWorkload(env, ref.kind, w) == ViewWorkload(env, ref.kind, c.workloads[ref]) ==>
              ViewOf(env, c.(workloads := c.workloads[ref := w])) == ViewOf(env, c)
  {
    ReplaceIntact(env, c, ref, w);
  }
}
