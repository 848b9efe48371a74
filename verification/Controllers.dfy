/**
 * The two hibernation controllers as they run against the API server: the cluster controller's calls for one
 * workload (internal/controller/clusterhibernatepolicy_controller.go), the namespace controller's loops over a
 * listing (internal/controller/hibernatepolicy_controller.go), and their agreement.
 */
module Controllers {
  import opened Options
  import opened Text
  import opened Names
  import opened Cluster
  import opened Autoscalers
  import opened Hibernation

  /** The API server. A patch may be refused for reasons of its own; a refused patch changes nothing. */
  class ApiServer {
    var workloads: map<Ref, Workload>
    var hpas: seq<Hpa>
    /** How many patches were refused; only the patches themselves count here. */
    ghost var refusals: nat

    function State(): Cluster
      reads this
    {
      Cluster(workloads, hpas)
    }

    constructor (c: Cluster)
      ensures State() == c && refusals == 0
    {
      workloads, hpas, refusals := c.workloads, c.hpas, 0;
    }

    /** Sends the difference between base and want; the server merges it into what is live. */
    method PatchWorkload(ref: Ref, base: Workload, want: Workload) returns (ok: bool)
      requires ref in workloads
      modifies this`workloads, this`refusals
      ensures refusals == old(refusals) + (if ok then 0 else 1)
      ensures ok ==> workloads == old(workloads)[ref := MergeWorkload(base, want, old(workloads)[ref])]
      ensures !ok ==> workloads == old(workloads)
    {
      ok := *;
      if ok {
        workloads := workloads[ref := MergeWorkload(base, want, workloads[ref])];
      } else {
        refusals := refusals + 1;
      }
    }

    method PatchHpa(i: nat, want: Hpa) returns (ok: bool)
      requires i < |hpas|
      modifies this`hpas, this`refusals
      ensures refusals == old(refusals) + (if ok then 0 else 1)
      ensures hpas == if ok then old(hpas)[i := want] else old(hpas)
    {
      ok := *;
      if ok {
        hpas := hpas[i := want];
      } else {
        refusals := refusals + 1;
      }
    }

    /** findHPA */
    method FindByTarget(ref: Ref) returns (r: Option<nat>)
      ensures r == FindHpa(hpas, ref)
    {
      for i := 0 to |hpas|
        invariant forall j :: 0 <= j < i ==> !Matches(hpas[j], ref)
      {
        if Matches(hpas[i], ref) {
          return Some(i);
        }
      }
      return None;
    }

    /** findSuspendedHPA */
    method FindBySavedTarget(ref: Ref) returns (r: Option<nat>)
      ensures r == FindSuspendedHpa(hpas, ref)
    {
      for i := 0 to |hpas|
        invariant forall j :: 0 <= j < i ==> !MatchesSaved(hpas[j], ref)
      {
        if MatchesSaved(hpas[i], ref) {
          return Some(i);
        }
      }
      return None;
    }

    method SuspendHpa(env: Env, ref: Ref, target: int) returns (failed: bool, ghost ok: bool)
      modifies this`hpas, this`refusals
      ensures Answered(old(refusals), refusals, failed) && (ok <==> !failed)
      ensures Outcome(State(), failed) == Suspend(env, old(State()), ref, target, ok)
    {
      failed, ok := false, true;
      var found := FindByTarget(ref);
      if found.None? {
        return;
      }
      var h := hpas[found.value];
      if Get(h.annotations, HpaMin) != "" {
        return;
      }
      var origMin := 1;
      if h.min.Some? {
        origMin := h.min.value;
      }
      var annotations := h.annotations;
      annotations := annotations[HpaMin := Itoa(origMin)];
      annotations := annotations[HpaMax := Itoa(h.max)];
      if target == 0 {
        annotations := annotations[HpaTargetApiVersion := h.target.apiVersion];
        annotations := annotations[HpaTargetKind := h.target.kind];
        annotations := annotations[HpaTargetName := h.target.name];
        h := h.(target := h.target.(name := DetachedTargetName(env.hash, h.target.kind, h.target.name)));
      } else {
        h := h.(min := Some(target), max := target);
      }
      h := h.(annotations := annotations);
      var patched := PatchHpa(found.value, h);
      failed, ok := !patched, patched;
    }

    method RestoreHpa(ref: Ref) returns (failed: bool, ghost ok: bool)
      modifies this`hpas, this`refusals
      ensures Answered(old(refusals), refusals, failed) && (ok <==> !failed)
      ensures Outcome(State(), failed) == Restore(old(State()), ref, ok)
    {
      failed, ok := false, true;
      var found := FindByTarget(ref);
      if found.None? {
        found := FindBySavedTarget(ref);
        if found.None? {
          return;
        }
      }
      var h := hpas[found.value];
      if Get(h.annotations, HpaMin) == "" {
        return;
      }
      var target := h.target;
      if Get(h.annotations, HpaTargetName) != "" {
        target := Target(Get(h.annotations, HpaTargetApiVersion), Get(h.annotations, HpaTargetKind),
                         Get(h.annotations, HpaTargetName));
      }
      h := h.(min := Some(ToInt32(ParseOriginalReplicas(Get(h.annotations, HpaMin)))),
              max := ToInt32(ParseOriginalReplicas(Get(h.annotations, HpaMax))),
              target := target,
              annotations := h.annotations - {HpaMin, HpaMax, HpaTargetApiVersion, HpaTargetKind, HpaTargetName});
      var patched := PatchHpa(found.value, h);
      failed, ok := !patched, patched;
    }

    /** suspendHPAForAction: without a cap there is nothing to hold the autoscaler at. */
    method SuspendHpaForAction(env: Env, ref: Ref, action: Action) returns (failed: bool, ghost ok: bool)
      modifies this`hpas, this`refusals
      ensures Answered(old(refusals), refusals, failed) && (ok <==> !failed)
      ensures action.maxReplicas.None? ==> State() == old(State()) && !failed
      ensures action.maxReplicas.Some? ==>
                Outcome(State(), failed) == Suspend(env, old(State()), ref, action.maxReplicas.value, ok)
    {
      failed, ok := false, true;
      if action.maxReplicas.Some? {
        failed, ok := SuspendHpa(env, ref, action.maxReplicas.value);
      }
    }

    // ---- The cluster controller: one workload at a time, read anew for each call ----

    method HibernateOne(env: Env, ref: Ref, action: Action, o: Owner)
      returns (was: bool, failed: bool, ghost fate: CallFate)
      modifies this
      ensures Answered(old(refusals), refusals, failed) && (fate == BOTH_LAND <==> !failed)
      ensures Report(State(), was, failed)
              == HibernateWorkload(env, old(State()), ref, action, o, fate.first, fate.second)
    {
      was, failed, fate := false, false, BOTH_LAND;
      KindsApart(ref.kind);
      if ref.kind == DEPLOYMENT || ref.kind == STATEFUL_SET || ref.kind == REPLICA_SET {
        if ref in workloads {
          was, failed, fate := HibernateReplicas(env, ref, action, o);
        }
      } else if ref.kind == DAEMON_SET && action.sleepDaemonSet && ref in workloads {
        was, failed, fate := HibernateDaemonSet(env, ref, action, o);
      }
    }

    /** The branch for Deployments, StatefulSets and ReplicaSets. */
    method HibernateReplicas(env: Env, ref: Ref, action: Action, o: Owner)
      returns (was: bool, failed: bool, ghost fate: CallFate)
      requires IsReplicaKind(ref.kind) && ref in workloads
      modifies this
      ensures Answered(old(refusals), refusals, failed) && (fate == BOTH_LAND <==> !failed)
      ensures Report(State(), was, failed)
              == HibernateWorkload(env, old(State()), ref, action, o, fate.first, fate.second)
    {
      var d := workloads[ref];
      ghost var ok;
      if Get(d.annotations, Hibernated) == TRUE_VALUE {
        if !OwnedBy(d, o) {
          return false, false, BOTH_LAND;
        }
        failed, ok := SuspendHpaForAction(env, ref, action);
        return true, failed, CallFate(ok, true);
      }
      var target := ComputeTargetReplicas(action, d.replicas.GetOr(1));
      if target.None? {
        return false, false, BOTH_LAND;
      }
      var base := d;
      d := d.(annotations := d.annotations[OriginalReplicas := Itoa(base.replicas.GetOr(1))]);
      d := d.(annotations := MarkHibernated(d.annotations, o));
      d := d.(replicas := target);
      MergeFresh(base, d);
      var patched := PatchWorkload(ref, base, d);
      if !patched {
        return false, true, CallFate(false, true);
      }
      failed, ok := SuspendHpa(env, ref, target.value);
      return true, failed, CallFate(true, ok);
    }

    method HibernateDaemonSet(env: Env, ref: Ref, action: Action, o: Owner)
      returns (was: bool, failed: bool, ghost fate: CallFate)
      requires ref.kind == DAEMON_SET && ref in workloads && action.sleepDaemonSet
      modifies this
      ensures Answered(old(refusals), refusals, failed) && (fate == BOTH_LAND <==> !failed)
      ensures Report(State(), was, failed)
              == HibernateWorkload(env, old(State()), ref, action, o, fate.first, fate.second)
    {
      KindsApart(ref.kind);
      var ds := workloads[ref];
      if Get(ds.annotations, Hibernated) == TRUE_VALUE {
        return OwnedBy(ds, o), false, BOTH_LAND;
      }
      var base := ds;
      ds := ds.(annotations := ds.annotations[OriginalNodeSelector := env.encode(ds.selector)]);
      ds := ds.(annotations := MarkHibernated(ds.annotations, o));
      ds := ds.(selector := HIBERNATE_SELECTOR);
      MergeFresh(base, ds);
      var patched := PatchWorkload(ref, base, ds);
      return true, !patched, CallFate(patched, true);
    }

    method WakeOne(env: Env, ref: Ref, o: Owner) returns (failed: bool, ghost fate: CallFate)
      modifies this
      ensures Answered(old(refusals), refusals, failed) && (fate == BOTH_LAND <==> !failed)
      ensures Outcome(State(), failed) == WakeWorkload(env, old(State()), ref, o, fate.first, fate.second)
    {
      failed, fate := false, BOTH_LAND;
      KindsApart(ref.kind);
      if !(IsReplicaKind(ref.kind) || ref.kind == DAEMON_SET) || ref !in workloads {
        return;
      }
      var base := workloads[ref];
      if Get(base.annotations, Hibernated) != TRUE_VALUE || !OwnedBy(base, o) {
        return;
      }
      ghost var first := true;
      var w := base;
      if ref.kind == DAEMON_SET {
        var selector := UnmarshalNodeSelector(env, Get(base.annotations, OriginalNodeSelector));
        w := w.(selector := selector, annotations := ClearHibernated(w.annotations) - {OriginalNodeSelector});
      } else {
        failed, first := RestoreHpa(ref);
        if failed {
          return true, CallFate(first, true);
        }
        var orig := ParseOriginalReplicas(Get(base.annotations, OriginalReplicas));
        w := w.(replicas := Some(ToInt32(orig)), annotations := ClearHibernated(w.annotations) - {OriginalReplicas});
      }
      MergeFresh(base, w);
      var patched := PatchWorkload(ref, base, w);
      return !patched, CallFate(first, patched);
    }

    /** Nothing saved and unreadable text both restore as no selector. */
    method UnmarshalNodeSelector(env: Env, text: string) returns (r: Selector)
      ensures r == if text == "" then None else env.decode(text).GetOr(None)
    {
      if text == "" {
        return None;
      }
      return env.decode(text).GetOr(None);
    }

    /**
     * The reconcile loop over collected workloads: wake inside a window, hibernate outside, and carry on after errors.
     */
    method ReconcileRefs(env: Env, refs: seq<Ref>, inWindow: bool, action: Action, o: Owner)
      returns (hibernated: seq<Ref>, failed: bool, ghost fates: seq<CallFate>)
      modifies this
      ensures Answered(old(refusals), refusals, failed) && (!failed ==> fates == Good(|refs|))
      ensures |fates| == |refs|
      ensures inWindow ==>
                hibernated == [] && Outcome(State(), failed) == ClusterWake(env, old(State()), refs, o, fates)
      ensures !inWindow && ActionSet(action) ==>
                ListReport(State(), hibernated, failed) == ClusterHibernate(env, old(State()), refs, action, o, fates)
      ensures !inWindow && !ActionSet(action) ==> State() == old(State()) && hibernated == [] && !failed
    {
      hibernated, failed, fates := [], false, [];
      for i := 0 to |refs|
        invariant |fates| == i
        invariant Answered(old(refusals), refusals, failed) && (!failed ==> fates == Good(i))
        invariant inWindow ==>
                    hibernated == [] && Outcome(State(), failed) == ClusterWake(env, old(State()), refs[..i], o, fates)
        invariant !inWindow && ActionSet(action) ==>
                    ListReport(State(), hibernated, failed)
                      == ClusterHibernate(env, old(State()), refs[..i], action, o, fates)
        invariant !inWindow && !ActionSet(action) ==> State() == old(State()) && hibernated == [] && !failed
      {
        assert refs[..i + 1][..i] == refs[..i];
        ghost var fate := BOTH_LAND;
        if inWindow {
          var err;
          err, fate := WakeOne(env, refs[i], o);
          failed := failed || err;
        } else if ActionSet(action) {
          var was, err;
          was, err, fate := HibernateOne(env, refs[i], action, o);
          if err {
            failed := true;
          } else if was {
            hibernated := hibernated + [refs[i]];
          }
        }
        assert (fates + [fate])[..i] == fates;
        fates := fates + [fate];
      }
      assert refs[..|refs|] == refs;
    }

    // ---- The namespace controller: one kind at a time, over a listing read up front ----

    /** The branch shared by Deployments, StatefulSets and ReplicaSets, on the workload as it was read. */
    method SleepReplicaWorkload(env: Env, ref: Ref, read: Workload, action: Action, o: Owner)
      returns (reported: bool, failed: bool, ghost fate: CallFate)
      requires IsReplicaKind(ref.kind) && ref in workloads && workloads[ref] == read
      modifies this
      ensures Answered(old(refusals), refusals, failed) && (fate == BOTH_LAND <==> !failed)
      ensures Report(State(), reported, failed)
              == HibernateWorkload(env, old(State()), ref, action, o, fate.first, fate.second)
    {
      reported, failed, fate := false, false, BOTH_LAND;
      if Get(read.annotations, Hibernated) == TRUE_VALUE {
        if !OwnedBy(read, o) {
          return;
        }
        ghost var held;
        failed, held := SuspendHpaForAction(env, ref, action);
        return true, failed, CallFate(held, true);
      }
      var current := 1;
      if read.replicas.Some? {
        current := read.replicas.value;
      }
      var target := ComputeTargetReplicas(action, current);
      if target.None? {
        return;
      }
      var annotations := read.annotations[OriginalReplicas := Itoa(current)];
      annotations := MarkHibernated(annotations, o);
      var want := read.(annotations := annotations, replicas := target);
      MergeFresh(read, want);
      var patched := PatchWorkload(ref, read, want);
      if !patched {
        failed, fate := true, CallFate(false, true);
        return;
      }
      ghost var ok;
      failed, ok := SuspendHpa(env, ref, target.value);
      reported, fate := true, CallFate(true, ok);
    }

    method SleepDaemonSet(env: Env, ref: Ref, read: Workload, o: Owner)
      returns (reported: bool, failed: bool, ghost fate: CallFate)
      requires ref.kind == DAEMON_SET && ref in workloads && workloads[ref] == read
      modifies this
      ensures Answered(old(refusals), refusals, failed) && (fate == BOTH_LAND <==> !failed)
      ensures forall action: Action :: action.sleepDaemonSet ==>
                Report(State(), reported, failed)
                == HibernateWorkload(env, old(State()), ref, action, o, fate.first, fate.second)
    {
      KindsApart(ref.kind);
      reported, failed, fate := true, false, BOTH_LAND;
      if Get(read.annotations, Hibernated) == TRUE_VALUE {
        reported := OwnedBy(read, o);
        return;
      }
      var annotations := read.annotations[OriginalNodeSelector := env.encode(read.selector)];
      annotations := MarkHibernated(annotations, o);
      var want := read.(annotations := annotations, selector := HIBERNATE_SELECTOR);
      MergeFresh(read, want);
      var patched := PatchWorkload(ref, read, want);
      failed, fate := !patched, CallFate(patched, true);
    }

    /** Restores the autoscaler, then clears the workload with a patch against what was read before that. */
    method WakeRead(env: Env, ref: Ref, read: Workload, o: Owner) returns (failed: bool, ghost fate: CallFate)
      requires IsReplicaKind(ref.kind) || ref.kind == DAEMON_SET
      requires ref in workloads && workloads[ref] == read
      modifies this
      ensures Answered(old(refusals), refusals, failed) && (fate == BOTH_LAND <==> !failed)
      ensures Outcome(State(), failed) == WakeWorkload(env, old(State()), ref, o, fate.first, fate.second)
    {
      KindsApart(ref.kind);
      failed, fate := false, BOTH_LAND;
      if Get(read.annotations, Hibernated) != TRUE_VALUE || !OwnedBy(read, o) {
        return;
      }
      var want: Workload;
      ghost var first := true;
      if ref.kind == DAEMON_SET {
        var saved := Get(read.annotations, OriginalNodeSelector);
        var selector: Selector := None;
        if saved != "" {
          selector := env.decode(saved).GetOr(None);
        }
        want := read.(selector := selector, annotations := ClearHibernated(read.annotations) - {OriginalNodeSelector});
      } else {
        failed, first := RestoreHpa(ref);
        if failed {
          fate := CallFate(first, true);
          return;
        }
        var replicas := ToInt32(ParseOriginalReplicas(Get(read.annotations, OriginalReplicas)));
        want := read.(replicas := Some(replicas),
                      annotations := ClearHibernated(read.annotations) - {OriginalReplicas});
      }
      MergeFresh(read, want);
      var patched := PatchWorkload(ref, read, want);
      failed, fate := !patched, CallFate(first, patched);
    }

    /** One turn of hibernateDeployments, hibernateStatefulSets, hibernateReplicaSets or hibernateDaemonSets. */
    method HibernateListedItem(env: Env, ref: Ref, read: Workload, action: Action, o: Owner, sofar: seq<Ref>)
      returns (hibernated: seq<Ref>, failed: bool, ghost fate: CallFate)
      requires ref in workloads && workloads[ref] == read && (IsReplicaKind(ref.kind) || ref.kind == DAEMON_SET)
      requires ref.kind == DAEMON_SET ==> action.sleepDaemonSet
      modifies this
      ensures Answered(old(refusals), refusals, failed) && (fate == BOTH_LAND <==> !failed)
      ensures ListReport(State(), hibernated, failed)
              == HibernateItem(env, ListReport(old(State()), sofar, false), ref, action, o, fate)
      ensures OthersKept(old(workloads), workloads, ref)
    {
      hibernated, failed, fate := sofar, false, BOTH_LAND;
      // ReplicaSets a Deployment owns are the Deployment's business.
      if ref.kind == REPLICA_SET && read.deploymentOwned {
        return;
      }
      var reported;
      if ref.kind == DAEMON_SET {
        reported, failed, fate := SleepDaemonSet(env, ref, read, o);
      } else {
        reported, failed, fate := SleepReplicaWorkload(env, ref, read, action, o);
      }
      HibernateTouchesOne(env, old(State()), ref, action, o, fate.first, fate.second);
      if reported && !failed {
        hibernated := hibernated + [ref];
      }
    }

    method HibernateListed(env: Env, items: seq<Ref>, action: Action, o: Owner)
      returns (hibernated: seq<Ref>, failed: bool, ghost fates: seq<CallFate>)
      requires Listing(workloads, items)
      requires action.sleepDaemonSet || forall ref :: ref in items ==> ref.kind != DAEMON_SET
      modifies this
      ensures Answered(old(refusals), refusals, failed) && (!failed ==> fates == Good(|items|))
      ensures |fates| == |items|
      ensures ListReport(State(), hibernated, failed)
              == HibernateList(env, old(State()), items, action, o, fates)
    {
      var read := workloads;
      hibernated, failed, fates := [], false, [];
      for i := 0 to |items|
        invariant |fates| == i
        invariant Answered(old(refusals), refusals, failed) && fates == Good(i)
        invariant !failed
        invariant ListReport(State(), hibernated, failed)
                  == HibernateList(env, old(State()), items[..i], action, o, fates)
        invariant workloads.Keys == read.Keys
        invariant forall j :: i <= j < |items| ==> workloads[items[j]] == read[items[j]]
      {
        ghost var fate;
        hibernated, failed, fate := HibernateListedItem(env, items[i], read[items[i]], action, o, hibernated);
        HibernateListGrows(env, old(State()), items, i, action, o, fates, fate);
        fates := fates + [fate];
        if failed {
          ghost var rest := Good(|items| - i - 1);
          FailureIsFinal(env, old(State()), items, action, o, fates, fates + rest);
          fates := fates + rest;
          return;
        }
      }
      assert items[..|items|] == items;
    }

    /** One turn of wakeDeployments, wakeStatefulSets, wakeReplicaSets or wakeDaemonSets. */
    method WakeListedItem(env: Env, ref: Ref, read: Workload, o: Owner) returns (failed: bool, ghost fate: CallFate)
      requires ref in workloads && workloads[ref] == read && (IsReplicaKind(ref.kind) || ref.kind == DAEMON_SET)
      modifies this
      ensures Answered(old(refusals), refusals, failed) && (fate == BOTH_LAND <==> !failed)
      ensures Outcome(State(), failed) == WakeItem(env, Outcome(old(State()), false), ref, o, fate)
      ensures OthersKept(old(workloads), workloads, ref)
    {
      failed, fate := false, BOTH_LAND;
      if ref.kind == REPLICA_SET && read.deploymentOwned {
        return;
      }
      failed, fate := WakeRead(env, ref, read, o);
      WakeTouchesOne(env, old(State()), ref, o, fate.first, fate.second);
    }

    method WakeListed(env: Env, items: seq<Ref>, o: Owner) returns (failed: bool, ghost fates: seq<CallFate>)
      requires Listing(workloads, items)
      modifies this
      ensures Answered(old(refusals), refusals, failed) && (!failed ==> fates == Good(|items|))
      ensures |fates| == |items|
      ensures Outcome(State(), failed) == WakeList(env, old(State()), items, o, fates)
    {
      var read := workloads;
      failed, fates := false, [];
      for i := 0 to |items|
        invariant |fates| == i
        invariant Answered(old(refusals), refusals, failed) && fates == Good(i)
        invariant !failed && Outcome(State(), failed) == WakeList(env, old(State()), items[..i], o, fates)
        invariant workloads.Keys == read.Keys
        invariant forall j :: i <= j < |items| ==> workloads[items[j]] == read[items[j]]
      {
        ghost var fate;
        failed, fate := WakeListedItem(env, items[i], read[items[i]], o);
        WakeListGrows(env, old(State()), items, i, o, fates, fate);
        fates := fates + [fate];
        if failed {
          ghost var rest := Good(|items| - i - 1);
          WakeFailureIsFinal(env, old(State()), items, o, fates, fates + rest);
          fates := fates + rest;
          return;
        }
      }
      assert items[..|items|] == items;
    }

    // ---- The namespace controller's reconcile: one workload type after the other ----

    method HibernateOfType(env: Env, t: TypeListing, action: Action, o: Owner)
      returns (hibernated: seq<Ref>, failed: bool, ghost fates: seq<CallFate>)
      requires Listing(workloads, t.items) && AllOfKind(t)
      modifies this
      ensures Answered(old(refusals), refusals, failed) && (!failed ==> fates == Good(|t.items|))
      ensures |fates| == |t.items| && workloads.Keys == old(workloads).Keys
      ensures ListReport(State(), hibernated, failed) == HibernateType(env, old(State()), t, action, o, fates)
    {
      if !ActionSet(action) || (t.kind == DAEMON_SET && !action.sleepDaemonSet) {
        return [], false, Good(|t.items|);
      }
      hibernated, failed, fates := HibernateListed(env, t.items, action, o);
      ListKeepsOwnership(env, old(State()), t.items, action, o, fates);
    }

    method ReconcileTypes(env: Env, types: seq<TypeListing>, inWindow: bool, action: Action, o: Owner)
      returns (hibernated: seq<Ref>, failed: bool, ghost fates: seq<seq<CallFate>>)
      requires forall k :: 0 <= k < |types| ==> Listing(workloads, types[k].items) && AllOfKind(types[k])
      modifies this
      ensures Answered(old(refusals), refusals, failed) && (!failed ==> fates == AllGood(types))
      ensures FatesFor(types, fates)
      ensures inWindow ==> hibernated == [] && Outcome(State(), failed) == WakeTypes(env, old(State()), types, o, fates)
      ensures !inWindow ==>
                ListReport(State(), hibernated, failed) == HibernateTypes(env, old(State()), types, action, o, fates)
    {
      hibernated := [];
      if inWindow {
        failed, fates := WakeAllTypes(env, types, o);
      } else {
        hibernated, failed, fates := HibernateAllTypes(env, types, action, o);
      }
    }

    method WakeAllTypes(env: Env, types: seq<TypeListing>, o: Owner)
      returns (failed: bool, ghost fates: seq<seq<CallFate>>)
      requires forall k :: 0 <= k < |types| ==> Listing(workloads, types[k].items)
      modifies this
      ensures Answered(old(refusals), refusals, failed) && (!failed ==> fates == AllGood(types))
      ensures FatesFor(types, fates) && Outcome(State(), failed) == WakeTypes(env, old(State()), types, o, fates)
    {
      failed, fates := false, [];
      for i := 0 to |types|
        invariant FatesFor(types[..i], fates) && workloads.Keys == old(workloads).Keys
        invariant Answered(old(refusals), refusals, failed) && (!failed ==> fates == AllGood(types[..i]))
        invariant Outcome(State(), failed) == WakeTypes(env, old(State()), types[..i], o, fates)
      {
        ghost var before := State();
        ghost var fate;
        var err;
        err, fate := WakeListed(env, types[i].items, o);
        WakeListKeepsOwnership(env, before, types[i].items, o, fate);
        failed := failed || err;
        FatesGrow(types, i, fates, fate);
        fates := fates + [fate];
      }
      assert types[..|types|] == types;
    }

    /** A type whose loop broke off reports nothing, and the next type gets its turn all the same. */
    method HibernateAllTypes(env: Env, types: seq<TypeListing>, action: Action, o: Owner)
      returns (hibernated: seq<Ref>, failed: bool, ghost fates: seq<seq<CallFate>>)
      requires forall k :: 0 <= k < |types| ==> Listing(workloads, types[k].items) && AllOfKind(types[k])
      modifies this
      ensures Answered(old(refusals), refusals, failed) && (!failed ==> fates == AllGood(types))
      ensures FatesFor(types, fates)
      ensures ListReport(State(), hibernated, failed) == HibernateTypes(env, old(State()), types, action, o, fates)
    {
      hibernated, failed, fates := [], false, [];
      for i := 0 to |types|
        invariant FatesFor(types[..i], fates) && workloads.Keys == old(workloads).Keys
        invariant Answered(old(refusals), refusals, failed) && (!failed ==> fates == AllGood(types[..i]))
        invariant ListReport(State(), hibernated, failed)
                  == HibernateTypes(env, old(State()), types[..i], action, o, fates)
      {
        ghost var fate;
        var names, err;
        names, err, fate := HibernateOfType(env, types[i], action, o);
        if !err {
          hibernated := hibernated + names;
        }
        failed := failed || err;
        FatesGrow(types, i, fates, fate);
        fates := fates + [fate];
      }
      assert types[..|types|] == types;
    }
  }

  lemma FatesGrow(types: seq<TypeListing>, i: nat, fates: seq<seq<CallFate>>, fate: seq<CallFate>)
    requires i < |types| && FatesFor(types[..i], fates) && |fate| == |types[i].items|
    ensures types[..i + 1][..i] == types[..i] && (fates + [fate])[..i] == fates
    ensures FatesFor(types[..i + 1], fates + [fate])
    ensures fates == AllGood(types[..i]) && fate == Good(|fate|) ==> fates + [fate] == AllGood(types[..i + 1])
  {
  }

  /** An error is returned exactly when the API server refused a patch of the call. */
  ghost predicate Answered(before: nat, after: nat, failed: bool) {
    after >= before && (failed <==> after > before)
  }

  ghost predicate OthersKept(before: map<Ref, Workload>, after: map<Ref, Workload>, ref: Ref) {
    after.Keys == before.Keys && forall r :: r in before && r != ref ==> after[r] == before[r]
  }

  /** A listing of workloads the controllers know how to handle, without repetition. */
  ghost predicate Listing(workloads: map<Ref, Workload>, items: seq<Ref>) {
    && (forall i :: 0 <= i < |items| ==>
         items[i] in workloads && (IsReplicaKind(items[i].kind) || items[i].kind == DAEMON_SET))
    && forall i, j :: 0 <= i < j < |items| ==> items[i] != items[j]
  }

  predicate Skipped(c: Cluster, ref: Ref) {
    ref.kind == REPLICA_SET && ref in c.workloads && c.workloads[ref].deploymentOwned
  }

  datatype ListReport = ListReport(cluster: Cluster, hibernated: seq<Ref>, failed: bool)

  /** The namespace controller's loop: skip what a Deployment owns, stop at the first error. */
  function HibernateList(env: Env, c: Cluster, items: seq<Ref>, action: Action, o: Owner,
                         fates: seq<CallFate>): ListReport
    requires |fates| == |items|
  {
    if items == [] then ListReport(c, [], false)
    else
      var n := |items| - 1;
      HibernateItem(env, HibernateList(env, c, items[..n], action, o, fates[..n]), items[n], action, o, fates[n])
  }

  function HibernateItem(env: Env, p: ListReport, ref: Ref, action: Action, o: Owner, fate: CallFate): ListReport {
    if p.failed || Skipped(p.cluster, ref) then p
    else
      var r := HibernateWorkload(env, p.cluster, ref, action, o, fate.first, fate.second);
      ListReport(r.cluster, if r.reported && !r.failed then p.hibernated + [ref] else p.hibernated, r.failed)
  }

  function WakeList(env: Env, c: Cluster, items: seq<Ref>, o: Owner, fates: seq<CallFate>): Outcome
    requires |fates| == |items|
  {
    if items == [] then Outcome(c, false)
    else
      var n := |items| - 1;
      WakeItem(env, WakeList(env, c, items[..n], o, fates[..n]), items[n], o, fates[n])
  }

  function WakeItem(env: Env, p: Outcome, ref: Ref, o: Owner, fate: CallFate): Outcome {
    if p.failed || Skipped(p.cluster, ref) then p
    else WakeWorkload(env, p.cluster, ref, o, fate.first, fate.second)
  }

  /** What listing the workloads of one type returned. */
  datatype TypeListing = TypeListing(kind: string, items: seq<Ref>)

  ghost predicate AllOfKind(t: TypeListing) {
    forall i :: 0 <= i < |t.items| ==> t.items[i].kind == t.kind
  }

  ghost predicate FatesFor(types: seq<TypeListing>, fates: seq<seq<CallFate>>) {
    |fates| == |types| && forall k :: 0 <= k < |types| ==> |fates[k]| == |types[k].items|
  }

  /** The loop of one type; daemon sets are left alone unless the action asks for them. */
  function HibernateType(env: Env, c: Cluster, t: TypeListing, action: Action, o: Owner,
                         fates: seq<CallFate>): ListReport
    requires |fates| == |t.items|
  {
    if !ActionSet(action) || (t.kind == DAEMON_SET && !action.sleepDaemonSet) then ListReport(c, [], false)
    else HibernateList(env, c, t.items, action, o, fates)
  }

  function HibernateTypes(env: Env, c: Cluster, types: seq<TypeListing>, action: Action, o: Owner,
                          fates: seq<seq<CallFate>>): ListReport
    requires FatesFor(types, fates)
  {
    if types == [] then ListReport(c, [], false)
    else
      var n := |types| - 1;
      var p := HibernateTypes(env, c, types[..n], action, o, fates[..n]);
      var r := HibernateType(env, p.cluster, types[n], action, o, fates[n]);
      ListReport(r.cluster, if r.failed then p.hibernated else p.hibernated + r.hibernated, p.failed || r.failed)
  }

  function WakeTypes(env: Env, c: Cluster, types: seq<TypeListing>, o: Owner, fates: seq<seq<CallFate>>): Outcome
    requires FatesFor(types, fates)
  {
    if types == [] then Outcome(c, false)
    else
      var n := |types| - 1;
      var p := WakeTypes(env, c, types[..n], o, fates[..n]);
      var r := WakeList(env, p.cluster, types[n].items, o, fates[n]);
      Outcome(r.cluster, p.failed || r.failed)
  }

  function AllGood(types: seq<TypeListing>): (fates: seq<seq<CallFate>>)
    ensures FatesFor(types, fates)
  {
    seq(|types|, k requires 0 <= k < |types| => Good(|types[k].items|))
  }

  lemma HibernateListGrows(env: Env, c: Cluster, items: seq<Ref>, i: nat, action: Action, o: Owner,
                           fates: seq<CallFate>,
                           fate: CallFate)
    requires i < |items| && |fates| == i
    ensures HibernateList(env, c, items[..i + 1], action, o, fates + [fate])
            == HibernateItem(env, HibernateList(env, c, items[..i], action, o, fates), items[i], action, o, fate)
  {
    assert items[..i + 1][..i] == items[..i] && (fates + [fate])[..i] == fates;
  }

  lemma WakeListGrows(env: Env, c: Cluster, items: seq<Ref>, i: nat, o: Owner, fates: seq<CallFate>, fate: CallFate)
    requires i < |items| && |fates| == i
    ensures WakeList(env, c, items[..i + 1], o, fates + [fate])
            == WakeItem(env, WakeList(env, c, items[..i], o, fates), items[i], o, fate)
  {
    assert items[..i + 1][..i] == items[..i] && (fates + [fate])[..i] == fates;
  }

  lemma HibernateTouchesOne(env: Env, c: Cluster, ref: Ref, action: Action, o: Owner, first: bool, second: bool)
    ensures HibernateWorkload(env, c, ref, action, o, first, second).cluster.workloads.Keys == c.workloads.Keys
    ensures forall r :: r in c.workloads && r != ref ==>
              HibernateWorkload(env, c, ref, action, o, first, second).cluster.workloads[r] == c.workloads[r]
    ensures ref in c.workloads ==>
              HibernateWorkload(env, c, ref, action, o, first, second).cluster.workloads[ref].deploymentOwned
                                   == c.workloads[ref].deploymentOwned
  {
  }

  lemma WakeTouchesOne(env: Env, c: Cluster, ref: Ref, o: Owner, first: bool, second: bool)
    ensures WakeWorkload(env, c, ref, o, first, second).cluster.workloads.Keys == c.workloads.Keys
    ensures forall r :: r in c.workloads && r != ref ==>
              WakeWorkload(env, c, ref, o, first, second).cluster.workloads[r] == c.workloads[r]
    ensures ref in c.workloads ==> WakeWorkload(env, c, ref, o, first, second).cluster.workloads[ref].deploymentOwned
                                   == c.workloads[ref].deploymentOwned
  {
  }

  lemma {:induction false} FailureIsFinal(env: Env, c: Cluster, items: seq<Ref>, action: Action, o: Owner,
                                          some: seq<CallFate>, all: seq<CallFate>)
    requires |some| <= |items| == |all| && some == all[..|some|]
    requires HibernateList(env, c, items[..|some|], action, o, some).failed
    ensures HibernateList(env, c, items, action, o, all) == HibernateList(env, c, items[..|some|], action, o, some)
    decreases |items|
  {
    if |some| < |items| {
      var n := |items| - 1;
      assert items[..n][..|some|] == items[..|some|] && all[..n][..|some|] == some;
      FailureIsFinal(env, c, items[..n], action, o, some, all[..n]);
    } else {
      assert items[..|some|] == items && some == all;
    }
  }

  lemma {:induction false} WakeFailureIsFinal(env: Env, c: Cluster, items: seq<Ref>, o: Owner, some: seq<CallFate>,
                                              all: seq<CallFate>)
    requires |some| <= |items| == |all| && some == all[..|some|]
    requires WakeList(env, c, items[..|some|], o, some).failed
    ensures WakeList(env, c, items, o, all) == WakeList(env, c, items[..|some|], o, some)
    decreases |items|
  {
    if |some| < |items| {
      var n := |items| - 1;
      assert items[..n][..|some|] == items[..|some|] && all[..n][..|some|] == some;
      WakeFailureIsFinal(env, c, items[..n], o, some, all[..n]);
    } else {
      assert items[..|some|] == items && some == all;
    }
  }

  // ---- The two controllers agree ----

  /** The cluster controller's loop over collected workloads: errors are gathered and the loop goes on. */
  function ClusterHibernate(env: Env, c: Cluster, refs: seq<Ref>, action: Action, o: Owner,
                            fates: seq<CallFate>): ListReport
    requires |fates| == |refs|
  {
    if refs == [] then ListReport(c, [], false)
    else
      var n := |refs| - 1;
      ClusterHibernateItem(env, ClusterHibernate(env, c, refs[..n], action, o, fates[..n]),
                           refs[n], action, o, fates[n])
  }

  function ClusterHibernateItem(env: Env, p: ListReport, ref: Ref, action: Action, o: Owner,
                                fate: CallFate): ListReport {
    var r := HibernateWorkload(env, p.cluster, ref, action, o, fate.first, fate.second);
    ListReport(r.cluster, if r.reported && !r.failed then p.hibernated + [ref] else p.hibernated, p.failed || r.failed)
  }

  function ClusterWake(env: Env, c: Cluster, refs: seq<Ref>, o: Owner, fates: seq<CallFate>): Outcome
    requires |fates| == |refs|
  {
    if refs == [] then Outcome(c, false)
    else
      var n := |refs| - 1;
      ClusterWakeItem(env, ClusterWake(env, c, refs[..n], o, fates[..n]), refs[n], o, fates[n])
  }

  function ClusterWakeItem(env: Env, p: Outcome, ref: Ref, o: Owner, fate: CallFate): Outcome {
    var r := WakeWorkload(env, p.cluster, ref, o, fate.first, fate.second);
    Outcome(r.cluster, p.failed || r.failed)
  }

  /** On a workload no Deployment owns, and without failures, one turn of either loop does the same. */
  lemma ItemsAgree(env: Env, p: ListReport, q: Outcome, ref: Ref, action: Action, o: Owner)
    requires !p.failed && !q.failed && !Skipped(p.cluster, ref) && !Skipped(q.cluster, ref)
    ensures HibernateItem(env, p, ref, action, o, BOTH_LAND) == ClusterHibernateItem(env, p, ref, action, o, BOTH_LAND)
    ensures !HibernateItem(env, p, ref, action, o, BOTH_LAND).failed
    ensures WakeItem(env, q, ref, o, BOTH_LAND) == ClusterWakeItem(env, q, ref, o, BOTH_LAND)
    ensures !WakeItem(env, q, ref, o, BOTH_LAND).failed
  {
  }

  function Good(n: nat): (fates: seq<CallFate>)
    ensures |fates| == n && forall i :: 0 <= i < n ==> fates[i] == BOTH_LAND
  {
    seq(n, _ => BOTH_LAND)
  }

  /** What the cluster controller collects: everything listed that no Deployment owns. */
  function Standalone(c: Cluster, items: seq<Ref>): seq<Ref> {
    if items == [] then []
    else
      var n := |items| - 1;
      if Skipped(c, items[n]) then Standalone(c, items[..n]) else Standalone(c, items[..n]) + [items[n]]
  }

  lemma {:induction false} ListKeepsOwnership(env: Env, c: Cluster, items: seq<Ref>, action: Action, o: Owner,
                                              fates: seq<CallFate>)
    requires |fates| == |items|
    ensures var d := HibernateList(env, c, items, action, o, fates).cluster;
            d.workloads.Keys == c.workloads.Keys && forall r :: Skipped(d, r) <==> Skipped(c, r)
  {
    if items != [] {
      var n := |items| - 1;
      ListKeepsOwnership(env, c, items[..n], action, o, fates[..n]);
      var p := HibernateList(env, c, items[..n], action, o, fates[..n]);
      HibernateTouchesOne(env, p.cluster, items[n], action, o, fates[n].first, fates[n].second);
    }
  }

  lemma {:induction false} WakeListKeepsOwnership(env: Env, c: Cluster, items: seq<Ref>, o: Owner, fates: seq<CallFate>)
    requires |fates| == |items|
    ensures var d := WakeList(env, c, items, o, fates).cluster;
            d.workloads.Keys == c.workloads.Keys && forall r :: Skipped(d, r) <==> Skipped(c, r)
  {
    if items != [] {
      var n := |items| - 1;
      WakeListKeepsOwnership(env, c, items[..n], o, fates[..n]);
      var p := WakeList(env, c, items[..n], o, fates[..n]);
      WakeTouchesOne(env, p.cluster, items[n], o, fates[n].first, fates[n].second);
    }
  }

  /** Without failures both controllers leave the same cluster and report the same workloads. */
  lemma {:induction false} HibernatesAgree(env: Env, c: Cluster, items: seq<Ref>, action: Action, o: Owner)
    ensures HibernateList(env, c, items, action, o, Good(|items|))
            == ClusterHibernate(env, c, Standalone(c, items), action, o, Good(|Standalone(c, items)|))
    ensures !HibernateList(env, c, items, action, o, Good(|items|)).failed
  {
    if items != [] {
      var n := |items| - 1;
      HibernatesAgree(env, c, items[..n], action, o);
      assert Good(n + 1)[..n] == Good(n);
      ListKeepsOwnership(env, c, items[..n], action, o, Good(n));
      var refs := Standalone(c, items);
      if !Skipped(c, items[n]) {
        var m := |refs| - 1;
        assert refs[..m] == Standalone(c, items[..n]) && refs[m] == items[n];
        assert Good(m + 1)[..m] == Good(m);
        var p := HibernateList(env, c, items[..n], action, o, Good(n));
        ItemsAgree(env, p, Outcome(p.cluster, false), items[n], action, o);
      }
    }
  }

  lemma {:induction false} WakesAgree(env: Env, c: Cluster, items: seq<Ref>, o: Owner)
    ensures WakeList(env, c, items, o, Good(|items|))
            == ClusterWake(env, c, Standalone(c, items), o, Good(|Standalone(c, items)|))
    ensures !WakeList(env, c, items, o, Good(|items|)).failed
  {
    if items != [] {
      var n := |items| - 1;
      WakesAgree(env, c, items[..n], o);
      assert Good(n + 1)[..n] == Good(n);
      WakeListKeepsOwnership(env, c, items[..n], o, Good(n));
      var refs := Standalone(c, items);
      if !Skipped(c, items[n]) {
        var m := |refs| - 1;
        assert refs[..m] == Standalone(c, items[..n]) && refs[m] == items[n];
        assert Good(m + 1)[..m] == Good(m);
        var q := WakeList(env, c, items[..n], o, Good(n));
        ItemsAgree(env, ListReport(q.cluster, [], false), q, items[n], Action(false, None), o);
      }
    }
  }

  // ---- And over all types ----

  /** Everything the loops of all types list. */
  function AllItems(types: seq<TypeListing>): seq<Ref> {
    if types == [] then [] else AllItems(types[..|types| - 1]) + types[|types| - 1].items
  }

  lemma {:induction false} StandaloneAppend(c: Cluster, some: seq<Ref>, more: seq<Ref>)
    ensures Standalone(c, some + more) == Standalone(c, some) + Standalone(c, more)
  {
    if more == [] {
      assert some + more == some;
    } else {
      var n := |more| - 1;
      StandaloneAppend(c, some, more[..n]);
      assert (some + more)[..|some + more| - 1] == some + more[..n];
    }
  }

  lemma {:induction false} SameStandalone(c: Cluster, d: Cluster, items: seq<Ref>)
    requires forall r :: Skipped(d, r) <==> Skipped(c, r)
    ensures Standalone(d, items) == Standalone(c, items)
  {
    if items != [] {
      SameStandalone(c, d, items[..|items| - 1]);
    }
  }

  /** Standalone is all that is listed but the ReplicaSets that a Deployment owns. */
  lemma {:induction false} StandaloneIff(c: Cluster, items: seq<Ref>, ref: Ref)
    ensures ref in Standalone(c, items)
            <==> ref in items && !(ref.kind == "ReplicaSet" && ref in c.workloads && c.workloads[ref].deploymentOwned)
  {
    if items != [] {
      var n := |items| - 1;
      StandaloneIff(c, items[..n], ref);
      assert items == items[..n] + [items[n]];
    }
  }

  lemma GoodLoopGrows(env: Env, c: Cluster, refs: seq<Ref>, ref: Ref, action: Action, o: Owner)
    ensures ClusterHibernate(env, c, refs + [ref], action, o, Good(|refs + [ref]|))
            == ClusterHibernateItem(env, ClusterHibernate(env, c, refs, action, o, Good(|refs|)), ref,
              action, o, BOTH_LAND)
  {
    var all := refs + [ref];
    assert all[..|all| - 1] == refs && Good(|all|)[..|all| - 1] == Good(|refs|);
  }

  /** What was reported before plays no part in a turn of the loop. */
  lemma TurnAppends(env: Env, p: ListReport, q: ListReport, ref: Ref, action: Action, o: Owner)
    ensures var both := ListReport(q.cluster, p.hibernated + q.hibernated, p.failed || q.failed);
            var r := ClusterHibernateItem(env, q, ref, action, o, BOTH_LAND);
            ClusterHibernateItem(env, both, ref, action, o, BOTH_LAND)
            == ListReport(r.cluster, p.hibernated + r.hibernated, p.failed || r.failed)
  {
    assert p.hibernated + q.hibernated + [ref] == p.hibernated + (q.hibernated + [ref]);
  }

  lemma {:induction false} HibernateOneAfterAnother(env: Env, c: Cluster, some: seq<Ref>, more: seq<Ref>,
                                                    action: Action,
                                                    o: Owner)
    ensures var p := ClusterHibernate(env, c, some, action, o, Good(|some|));
            var q := ClusterHibernate(env, p.cluster, more, action, o, Good(|more|));
            ClusterHibernate(env, c, some + more, action, o, Good(|some + more|))
            == ListReport(q.cluster, p.hibernated + q.hibernated, p.failed || q.failed)
  {
    var p := ClusterHibernate(env, c, some, action, o, Good(|some|));
    if more == [] {
      assert some + more == some;
    } else {
      var most, last := more[..|more| - 1], more[|more| - 1];
      HibernateOneAfterAnother(env, c, some, most, action, o);
      assert more == most + [last] && some + more == (some + most) + [last];
      GoodLoopGrows(env, c, some + most, last, action, o);
      GoodLoopGrows(env, p.cluster, most, last, action, o);
      TurnAppends(env, p, ClusterHibernate(env, p.cluster, most, action, o, Good(|most|)), last, action, o);
    }
  }

  lemma GoodWakeLoopGrows(env: Env, c: Cluster, refs: seq<Ref>, ref: Ref, o: Owner)
    ensures ClusterWake(env, c, refs + [ref], o, Good(|refs + [ref]|))
            == ClusterWakeItem(env, ClusterWake(env, c, refs, o, Good(|refs|)), ref, o, BOTH_LAND)
  {
    var all := refs + [ref];
    assert all[..|all| - 1] == refs && Good(|all|)[..|all| - 1] == Good(|refs|);
  }

  lemma {:induction false} WakeOneAfterAnother(env: Env, c: Cluster, some: seq<Ref>, more: seq<Ref>, o: Owner)
    ensures var p := ClusterWake(env, c, some, o, Good(|some|));
            var q := ClusterWake(env, p.cluster, more, o, Good(|more|));
            ClusterWake(env, c, some + more, o, Good(|some + more|)) == Outcome(q.cluster, p.failed || q.failed)
  {
    var p := ClusterWake(env, c, some, o, Good(|some|));
    if more == [] {
      assert some + more == some;
    } else {
      var most, last := more[..|more| - 1], more[|more| - 1];
      WakeOneAfterAnother(env, c, some, most, o);
      assert more == most + [last] && some + more == (some + most) + [last];
      GoodWakeLoopGrows(env, c, some + most, last, o);
      GoodWakeLoopGrows(env, p.cluster, most, last, o);
    }
  }

  /** The cluster controller meets daemon sets it is not asked to sleep, and does nothing. */
  lemma {:induction false} DaemonSetsLeftAlone(env: Env, c: Cluster, refs: seq<Ref>, action: Action, o: Owner)
    requires !action.sleepDaemonSet && forall i :: 0 <= i < |refs| ==> refs[i].kind == DAEMON_SET
    ensures ClusterHibernate(env, c, refs, action, o, Good(|refs|)) == ListReport(c, [], false)
  {
    if refs != [] {
      var n := |refs| - 1;
      DaemonSetsLeftAlone(env, c, refs[..n], action, o);
      KindsApart(DAEMON_SET);
      assert Good(n + 1)[..n] == Good(n);
    }
  }

  lemma {:induction false} StandaloneMembers(c: Cluster, items: seq<Ref>, kind: string)
    requires forall i :: 0 <= i < |items| ==> items[i].kind == kind
    ensures forall i :: 0 <= i < |Standalone(c, items)| ==> Standalone(c, items)[i].kind == kind
  {
    if items != [] {
      StandaloneMembers(c, items[..|items| - 1], kind);
    }
  }

  /** One type: the gates of the namespace controller agree with the branches of the cluster controller. */
  lemma TypeAgrees(env: Env, c: Cluster, t: TypeListing, action: Action, o: Owner)
    requires AllOfKind(t) && ActionSet(action)
    ensures HibernateType(env, c, t, action, o, Good(|t.items|))
            == ClusterHibernate(env, c, Standalone(c, t.items), action, o, Good(|Standalone(c, t.items)|))
    ensures !HibernateType(env, c, t, action, o, Good(|t.items|)).failed
    ensures var d := HibernateType(env, c, t, action, o, Good(|t.items|)).cluster;
            forall r :: Skipped(d, r) <==> Skipped(c, r)
  {
    HibernatesAgree(env, c, t.items, action, o);
    ListKeepsOwnership(env, c, t.items, action, o, Good(|t.items|));
    if t.kind == DAEMON_SET && !action.sleepDaemonSet {
      StandaloneMembers(c, t.items, DAEMON_SET);
      DaemonSetsLeftAlone(env, c, Standalone(c, t.items), action, o);
    }
  }

  /**
   * Without failures a namespace policy's whole reconcile, type after type behind its gates, leaves the same cluster
   * and reports the same workloads as the cluster controller's one loop over everything no Deployment owns; with an
   * action that asks for nothing both do nothing.
   */
  lemma {:induction false} ReconcilesAgree(env: Env, c: Cluster, types: seq<TypeListing>, action: Action, o: Owner)
    requires forall k :: 0 <= k < |types| ==> AllOfKind(types[k])
    ensures var refs := Standalone(c, AllItems(types));
            HibernateTypes(env, c, types, action, o, AllGood(types))
            == if ActionSet(action) then ClusterHibernate(env, c, refs, action, o, Good(|refs|))
              else ListReport(c, [], false)
    ensures var d := HibernateTypes(env, c, types, action, o, AllGood(types));
            !d.failed && forall r :: Skipped(d.cluster, r) <==> Skipped(c, r)
  {
    if types != [] {
      var n := |types| - 1;
      ReconcilesAgree(env, c, types[..n], action, o);
      assert AllGood(types)[..n] == AllGood(types[..n]);
      var p := HibernateTypes(env, c, types[..n], action, o, AllGood(types[..n]));
      if ActionSet(action) {
        TypeAgrees(env, p.cluster, types[n], action, o);
        SameStandalone(c, p.cluster, types[n].items);
        StandaloneAppend(c, AllItems(types[..n]), types[n].items);
        HibernateOneAfterAnother(env, c, Standalone(c, AllItems(types[..n])), Standalone(c, types[n].items), action, o);
      }
    }
  }

  lemma {:induction false} WakingReconcilesAgree(env: Env, c: Cluster, types: seq<TypeListing>, o: Owner)
    ensures var refs := Standalone(c, AllItems(types));
            WakeTypes(env, c, types, o, AllGood(types)) == ClusterWake(env, c, refs, o, Good(|refs|))
    ensures var d := WakeTypes(env, c, types, o, AllGood(types));
            !d.failed && forall r :: Skipped(d.cluster, r) <==> Skipped(c, r)
  {
    if types != [] {
      var n := |types| - 1;
      WakingReconcilesAgree(env, c, types[..n], o);
      assert AllGood(types)[..n] == AllGood(types[..n]);
      var p := WakeTypes(env, c, types[..n], o, AllGood(types[..n]));
      WakesAgree(env, p.cluster, types[n].items, o);
      WakeListKeepsOwnership(env, p.cluster, types[n].items, o, Good(|types[n].items|));
      SameStandalone(c, p.cluster, types[n].items);
      StandaloneAppend(c, AllItems(types[..n]), types[n].items);
      WakeOneAfterAnother(env, c, Standalone(c, AllItems(types[..n])), Standalone(c, types[n].items), o);
    }
  }

  /** An action that asks for nothing hibernates nothing. */
  predicate ActionSet(action: Action) {
    action.sleepDaemonSet || action.maxReplicas.Some?
  }

  /** Whether the first and the second patch of one call succeed. */
  datatype CallFate = CallFate(first: bool, second: bool)

  const BOTH_LAND := CallFate(true, true)
}
