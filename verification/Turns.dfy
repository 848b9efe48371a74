/**
 * What the controllers' loops come to for one workload: a refused patch elsewhere changes nothing for it, every
 * workload ends as if its own call were the only one.
 */
module Turns {
  import opened Options
  import opened Cluster
  import opened Autoscalers
  import opened Hibernation
  import opened Controllers

  ghost predicate Distinct(items: seq<Ref>) {
    forall i, j :: 0 <= i < j < |items| ==> items[i] != items[j]
  }

  /** The two clusters hold the same workload under ref, if any. */
  ghost predicate SameAt(c: Cluster, d: Cluster, ref: Ref) {
    (ref in c.workloads <==> ref in d.workloads) && (ref in c.workloads ==> d.workloads[ref] == c.workloads[ref])
  }

  /** What a hibernate call makes of its workload and reports hangs on that workload alone. */
  lemma HibernateIsLocal(env: Env, c: Cluster, d: Cluster, ref: Ref, action: Action, o: Owner, fate: CallFate)
    requires SameAt(c, d, ref)
    ensures var r := HibernateWorkload(env, c, ref, action, o, fate.first, fate.second);
            var q := HibernateWorkload(env, d, ref, action, o, fate.first, fate.second);
            SameAt(r.cluster, q.cluster, ref) && (r.reported <==> q.reported) && (fate == BOTH_LAND ==> !q.failed)
  {
  }

  lemma WakeIsLocal(env: Env, c: Cluster, d: Cluster, ref: Ref, o: Owner)
    requires SameAt(c, d, ref)
    ensures SameAt(WakeWorkload(env, c, ref, o, true, true).cluster, WakeWorkload(env, d, ref, o, true, true).cluster,
                   ref)
    ensures !WakeWorkload(env, d, ref, o, true, true).failed
  {
  }

  // ---- The cluster controller: one loop that carries on ----

  lemma {:induction false} LoopTouchesListed(env: Env, c: Cluster, refs: seq<Ref>, action: Action, o: Owner,
                                             fates: seq<CallFate>, ref: Ref)
    requires |fates| == |refs| && ref !in refs
    ensures var p := ClusterHibernate(env, c, refs, action, o, fates);
            SameAt(c, p.cluster, ref) && ref !in p.hibernated
  {
    if refs != [] {
      var n := |refs| - 1;
      LoopTouchesListed(env, c, refs[..n], action, o, fates[..n], ref);
      HibernateTouchesOne(env, ClusterHibernate(env, c, refs[..n], action, o, fates[..n]).cluster, refs[n], action, o,
        fates[n].first, fates[n].second);
    }
  }

  lemma TurnOfAnotherCollected(env: Env, p: ListReport, other: Ref, action: Action, o: Owner, fate: CallFate, ref: Ref)
    requires ref != other
    ensures var q := ClusterHibernateItem(env, p, other, action, o, fate);
            SameAt(p.cluster, q.cluster, ref) && (ref in q.hibernated <==> ref in p.hibernated)
  {
    HibernateTouchesOne(env, p.cluster, other, action, o, fate.first, fate.second);
  }

  /** Whatever happens to the others, a listed workload becomes what its own call makes of it, and is reported so. */
  lemma {:induction false} EachCollectedSleepsAlone(env: Env, c: Cluster, refs: seq<Ref>, action: Action, o: Owner,
                                                    fates: seq<CallFate>, k: nat)
    requires |fates| == |refs| && Distinct(refs) && k < |refs|
    ensures var p := ClusterHibernate(env, c, refs, action, o, fates);
            var r := HibernateWorkload(env, c, refs[k], action, o, fates[k].first, fates[k].second);
            && SameAt(r.cluster, p.cluster, refs[k])
            && (refs[k] in p.hibernated ==> r.reported)
            && (fates[k] == BOTH_LAND && r.reported ==> refs[k] in p.hibernated)
  {
    var n := |refs| - 1;
    var p := ClusterHibernate(env, c, refs[..n], action, o, fates[..n]);
    if k < n {
      EachCollectedSleepsAlone(env, c, refs[..n], action, o, fates[..n], k);
      TurnOfAnotherCollected(env, p, refs[n], action, o, fates[n], refs[k]);
    } else {
      LoopTouchesListed(env, c, refs[..n], action, o, fates[..n], refs[n]);
      HibernateIsLocal(env, c, p.cluster, refs[n], action, o, fates[n]);
    }
  }

  lemma {:induction false} WakeLoopTouchesListed(env: Env, c: Cluster, refs: seq<Ref>, o: Owner, fates: seq<CallFate>,
                                                 ref: Ref)
    requires |fates| == |refs| && ref !in refs
    ensures SameAt(c, ClusterWake(env, c, refs, o, fates).cluster, ref)
  {
    if refs != [] {
      var n := |refs| - 1;
      WakeLoopTouchesListed(env, c, refs[..n], o, fates[..n], ref);
      WakeTouchesOne(env, ClusterWake(env, c, refs[..n], o, fates[..n]).cluster, refs[n], o, fates[n].first,
        fates[n].second);
    }
  }

  lemma {:induction false} EachCollectedWakesAlone(env: Env, c: Cluster, refs: seq<Ref>, o: Owner,
                                                   fates: seq<CallFate>, k: nat)
    requires |fates| == |refs| && Distinct(refs) && k < |refs| && fates[k] == BOTH_LAND
    ensures SameAt(WakeWorkload(env, c, refs[k], o, true, true).cluster, ClusterWake(env, c, refs, o, fates).cluster,
                   refs[k])
  {
    var n := |refs| - 1;
    var p := ClusterWake(env, c, refs[..n], o, fates[..n]);
    if k < n {
      EachCollectedWakesAlone(env, c, refs[..n], o, fates[..n], k);
      WakeTouchesOne(env, p.cluster, refs[n], o, fates[n].first, fates[n].second);
    } else {
      WakeLoopTouchesListed(env, c, refs[..n], o, fates[..n], refs[n]);
      WakeIsLocal(env, c, p.cluster, refs[n], o);
    }
  }

  // ---- The namespace controller: a loop for each type, each of which may break off ----

  /** A ReplicaSet that a Deployment owns. */
  ghost predicate DeploymentOwned(c: Cluster, ref: Ref) {
    ref.kind == "ReplicaSet" && ref in c.workloads && c.workloads[ref].deploymentOwned
  }

  lemma {:induction false} ListTouchesItems(env: Env, c: Cluster, items: seq<Ref>, action: Action, o: Owner,
                                            fates: seq<CallFate>, ref: Ref)
    requires |fates| == |items| && (ref !in items || DeploymentOwned(c, ref))
    ensures var p := HibernateList(env, c, items, action, o, fates);
            SameAt(c, p.cluster, ref) && ref !in p.hibernated
  {
    if items != [] {
      var n := |items| - 1;
      ListTouchesItems(env, c, items[..n], action, o, fates[..n], ref);
      HibernateTouchesOne(env, HibernateList(env, c, items[..n], action, o, fates[..n]).cluster, items[n], action, o,
        fates[n].first, fates[n].second);
    }
  }

  lemma TurnOfAnother(env: Env, p: ListReport, other: Ref, action: Action, o: Owner, fate: CallFate, ref: Ref)
    requires ref != other
    ensures var q := HibernateItem(env, p, other, action, o, fate);
            SameAt(p.cluster, q.cluster, ref) && (ref in q.hibernated <==> ref in p.hibernated)
  {
    HibernateTouchesOne(env, p.cluster, other, action, o, fate.first, fate.second);
  }

  lemma OwnTurn(env: Env, c: Cluster, p: ListReport, ref: Ref, action: Action, o: Owner)
    requires SameAt(c, p.cluster, ref) && !p.failed && ref !in p.hibernated && !DeploymentOwned(c, ref)
    ensures var q := HibernateItem(env, p, ref, action, o, BOTH_LAND);
            var r := HibernateWorkload(env, c, ref, action, o, true, true);
            SameAt(r.cluster, q.cluster, ref) && (ref in q.hibernated <==> r.reported) && !q.failed
  {
    HibernateIsLocal(env, c, p.cluster, ref, action, o, BOTH_LAND);
  }

  lemma {:induction false} EachListedSleepsAlone(env: Env, c: Cluster, items: seq<Ref>, action: Action, o: Owner,
                                                 k: nat)
    requires Distinct(items) && k < |items| && !DeploymentOwned(c, items[k])
    ensures var p := HibernateList(env, c, items, action, o, Good(|items|));
            var r := HibernateWorkload(env, c, items[k], action, o, true, true);
            && SameAt(r.cluster, p.cluster, items[k])
            && (items[k] in p.hibernated <==> r.reported)
            && !p.failed
  {
    var n := |items| - 1;
    assert Good(n + 1)[..n] == Good(n);
    var p := HibernateList(env, c, items[..n], action, o, Good(n));
    HibernatesAgree(env, c, items, action, o);
    if k < n {
      EachListedSleepsAlone(env, c, items[..n], action, o, k);
      TurnOfAnother(env, p, items[n], action, o, BOTH_LAND, items[k]);
    } else {
      HibernatesAgree(env, c, items[..n], action, o);
      ListTouchesItems(env, c, items[..n], action, o, Good(n), items[n]);
      OwnTurn(env, c, p, items[n], action, o);
    }
  }

  /** Types as the controller goes through them: each listing of one kind, no kind twice, nothing listed twice. */
  ghost predicate TypesOk(types: seq<TypeListing>) {
    && (forall k :: 0 <= k < |types| ==> AllOfKind(types[k]) && Distinct(types[k].items))
    && forall j, k :: 0 <= j < k < |types| ==> types[j].kind != types[k].kind
  }

  lemma OtherType(types: seq<TypeListing>, k: nat, ref: Ref)
    requires TypesOk(types) && k < |types| && ref.kind != types[k].kind
    ensures ref !in types[k].items
  {
    assert AllOfKind(types[k]);
  }

  lemma OtherTypeTouchesNothing(env: Env, c: Cluster, types: seq<TypeListing>, k: nat, action: Action, o: Owner,
                                fates: seq<CallFate>, ref: Ref)
    requires TypesOk(types) && k < |types| && (ref.kind != types[k].kind || DeploymentOwned(c, ref))
    requires |fates| == |types[k].items|
    ensures var p := HibernateType(env, c, types[k], action, o, fates);
            SameAt(c, p.cluster, ref) && ref !in p.hibernated
  {
    if types[k].kind != ref.kind {
      OtherType(types, k, ref);
    }
    ListTouchesItems(env, c, types[k].items, action, o, fates, ref);
  }

  /** Types of other kinds pass a workload by. */
  lemma {:induction false} OtherTypesTouchNothing(env: Env, c: Cluster, types: seq<TypeListing>, action: Action,
                                                  o: Owner, fates: seq<seq<CallFate>>, ref: Ref)
    requires FatesFor(types, fates) && TypesOk(types)
    requires (forall k :: 0 <= k < |types| ==> types[k].kind != ref.kind) || DeploymentOwned(c, ref)
    ensures var p := HibernateTypes(env, c, types, action, o, fates);
            SameAt(c, p.cluster, ref) && ref !in p.hibernated
  {
    if types != [] {
      var n := |types| - 1;
      OtherTypesTouchNothing(env, c, types[..n], action, o, fates[..n], ref);
      var p := HibernateTypes(env, c, types[..n], action, o, fates[..n]);
      OtherTypeTouchesNothing(env, p.cluster, types, n, action, o, fates[n], ref);
    }
  }

  /**
   * A type from which no patch is refused gets its due, whatever becomes of the types before and after it: each of its
   * workloads, unless a Deployment owns it, becomes what its own call makes of it and is reported exactly so.
   */
  lemma {:induction false} EachTypeSleepsAlone(env: Env, c: Cluster, types: seq<TypeListing>, action: Action, o: Owner,
                                               fates: seq<seq<CallFate>>, k: nat, ref: Ref)
    requires FatesFor(types, fates) && TypesOk(types) && k < |types| && ref in types[k].items
    requires fates[k] == Good(|types[k].items|) && !DeploymentOwned(c, ref)
    requires action.sleepDaemonSet || action.maxReplicas.Some?
    ensures var p := HibernateTypes(env, c, types, action, o, fates);
            var r := HibernateWorkload(env, c, ref, action, o, true, true);
            SameAt(r.cluster, p.cluster, ref) && (ref in p.hibernated <==> r.reported)
  {
    var n := |types| - 1;
    var p := HibernateTypes(env, c, types[..n], action, o, fates[..n]);
    assert ref.kind == types[k].kind by { assert AllOfKind(types[k]); }
    if k < n {
      EachTypeSleepsAlone(env, c, types[..n], action, o, fates[..n], k, ref);
      OtherTypeTouchesNothing(env, p.cluster, types, n, action, o, fates[n], ref);
    } else {
      OtherTypesTouchNothing(env, c, types[..n], action, o, fates[..n], ref);
      TypeSleepsAlone(env, c, p.cluster, types[n], action, o, ref);
    }
  }

  lemma TypeSleepsAlone(env: Env, c: Cluster, d: Cluster, t: TypeListing, action: Action, o: Owner, ref: Ref)
    requires SameAt(c, d, ref) && AllOfKind(t) && Distinct(t.items) && ref in t.items && !DeploymentOwned(c, ref)
    requires action.sleepDaemonSet || action.maxReplicas.Some?
    ensures var p := HibernateType(env, d, t, action, o, Good(|t.items|));
            var r := HibernateWorkload(env, c, ref, action, o, true, true);
            SameAt(r.cluster, p.cluster, ref) && (ref in p.hibernated <==> r.reported) && !p.failed
  {
    var i :| 0 <= i < |t.items| && t.items[i] == ref;
    KindsApart(t.kind);
    EachListedSleepsAlone(env, d, t.items, action, o, i);
    HibernateIsLocal(env, c, d, ref, action, o, BOTH_LAND);
  }

  /** What one more type adds. */
  lemma AfterType(env: Env, c: Cluster, types: seq<TypeListing>, action: Action, o: Owner, fates: seq<seq<CallFate>>,
                  n: nat, ref: Ref)
    requires FatesFor(types, fates) && n < |types|
    ensures var p := HibernateTypes(env, c, types[..n], action, o, fates[..n]);
            var r := HibernateType(env, p.cluster, types[n], action, o, fates[n]);
            var q := HibernateTypes(env, c, types[..n + 1], action, o, fates[..n + 1]);
            && (q.failed <==> p.failed || r.failed)
            && (ref in q.hibernated <==> ref in p.hibernated || (!r.failed && ref in r.hibernated))
  {
    assert types[..n + 1][..n] == types[..n] && fates[..n + 1][..n] == fates[..n];
  }

  lemma {:induction false} LaterTypesAddNothing(env: Env, c: Cluster, types: seq<TypeListing>, action: Action, o: Owner,
                                                fates: seq<seq<CallFate>>, k: nat, n: nat, ref: Ref)
    requires FatesFor(types, fates) && TypesOk(types) && k < n <= |types| && ref.kind == types[k].kind
    ensures var p := HibernateTypes(env, c, types[..k + 1], action, o, fates[..k + 1]);
            var q := HibernateTypes(env, c, types[..n], action, o, fates[..n]);
            (ref in q.hibernated <==> ref in p.hibernated) && (p.failed ==> q.failed)
    decreases n
  {
    if k + 1 < n {
      LaterTypesAddNothing(env, c, types, action, o, fates, k, n - 1, ref);
      var p := HibernateTypes(env, c, types[..n - 1], action, o, fates[..n - 1]);
      OtherTypeTouchesNothing(env, p.cluster, types, n - 1, action, o, fates[n - 1], ref);
      AfterType(env, c, types, action, o, fates, n - 1, ref);
    }
  }

  /** A type whose loop broke off reports nothing. */
  lemma BrokenTypeReportsNothing(env: Env, c: Cluster, types: seq<TypeListing>, action: Action, o: Owner,
                                 fates: seq<seq<CallFate>>, k: nat, before: Cluster, ref: Ref)
    requires FatesFor(types, fates) && TypesOk(types) && k < |types| && ref.kind == types[k].kind
    requires before == HibernateTypes(env, c, types[..k], action, o, fates[..k]).cluster
    requires HibernateType(env, before, types[k], action, o, fates[k]).failed
    ensures var p := HibernateTypes(env, c, types, action, o, fates);
            p.failed && ref !in p.hibernated
  {
    OtherTypesTouchNothing(env, c, types[..k], action, o, fates[..k], ref);
    AfterType(env, c, types, action, o, fates, k, ref);
    LaterTypesAddNothing(env, c, types, action, o, fates, k, |types|, ref);
    assert types[..|types|] == types && fates[..|types|] == fates;
  }

  /** An action that asks for nothing changes and reports nothing. */
  lemma {:induction false} NothingAskedNothingDone(env: Env, c: Cluster, types: seq<TypeListing>, o: Owner,
                                                   fates: seq<seq<CallFate>>)
    requires FatesFor(types, fates)
    ensures HibernateTypes(env, c, types, Action(false, None), o, fates) == ListReport(c, [], false)
  {
    if types != [] {
      NothingAskedNothingDone(env, c, types[..|types| - 1], o, fates[..|types| - 1]);
    }
  }

  // ---- Waking, type after type ----

  lemma {:induction false} WakeListTouchesItems(env: Env, c: Cluster, items: seq<Ref>, o: Owner, fates: seq<CallFate>,
                                                ref: Ref)
    requires |fates| == |items| && (ref !in items || DeploymentOwned(c, ref))
    ensures SameAt(c, WakeList(env, c, items, o, fates).cluster, ref)
  {
    if items != [] {
      var n := |items| - 1;
      WakeListTouchesItems(env, c, items[..n], o, fates[..n], ref);
      WakeTouchesOne(env, WakeList(env, c, items[..n], o, fates[..n]).cluster, items[n], o, fates[n].first,
        fates[n].second);
    }
  }

  lemma OwnWakeTurn(env: Env, c: Cluster, p: Outcome, ref: Ref, o: Owner)
    requires SameAt(c, p.cluster, ref) && !p.failed && !DeploymentOwned(c, ref)
    ensures SameAt(WakeWorkload(env, c, ref, o, true, true).cluster, WakeItem(env, p, ref, o, BOTH_LAND).cluster, ref)
  {
    WakeIsLocal(env, c, p.cluster, ref, o);
  }

  lemma WakeTurnOfAnother(env: Env, p: Outcome, other: Ref, o: Owner, fate: CallFate, ref: Ref)
    requires ref != other
    ensures SameAt(p.cluster, WakeItem(env, p, other, o, fate).cluster, ref)
  {
    WakeTouchesOne(env, p.cluster, other, o, fate.first, fate.second);
  }

  lemma {:induction false} EachListedWakesAlone(env: Env, c: Cluster, items: seq<Ref>, o: Owner, k: nat)
    requires Distinct(items) && k < |items| && !DeploymentOwned(c, items[k])
    ensures SameAt(WakeWorkload(env, c, items[k], o, true, true).cluster,
                   WakeList(env, c, items, o, Good(|items|)).cluster, items[k])
  {
    var n := |items| - 1;
    assert Good(n + 1)[..n] == Good(n);
    var p := WakeList(env, c, items[..n], o, Good(n));
    if k < n {
      EachListedWakesAlone(env, c, items[..n], o, k);
      WakeTurnOfAnother(env, p, items[n], o, BOTH_LAND, items[k]);
    } else {
      WakesAgree(env, c, items[..n], o);
      WakeListTouchesItems(env, c, items[..n], o, Good(n), items[n]);
      OwnWakeTurn(env, c, p, items[n], o);
    }
  }

  lemma {:induction false} OtherTypesWakeNothing(env: Env, c: Cluster, types: seq<TypeListing>, o: Owner,
                                                 fates: seq<seq<CallFate>>, ref: Ref)
    requires FatesFor(types, fates) && TypesOk(types)
    requires (forall k :: 0 <= k < |types| ==> types[k].kind != ref.kind) || DeploymentOwned(c, ref)
    ensures SameAt(c, WakeTypes(env, c, types, o, fates).cluster, ref)
  {
    if types != [] {
      var n := |types| - 1;
      OtherTypesWakeNothing(env, c, types[..n], o, fates[..n], ref);
      var p := WakeTypes(env, c, types[..n], o, fates[..n]);
      if types[n].kind != ref.kind {
        OtherType(types, n, ref);
      }
      WakeListTouchesItems(env, p.cluster, types[n].items, o, fates[n], ref);
    }
  }

  /** Waking, likewise. */
  lemma {:induction false} EachTypeWakesAlone(env: Env, c: Cluster, types: seq<TypeListing>, o: Owner,
                                              fates: seq<seq<CallFate>>, k: nat, ref: Ref)
    requires FatesFor(types, fates) && TypesOk(types) && k < |types| && ref in types[k].items
    requires fates[k] == Good(|types[k].items|) && !DeploymentOwned(c, ref)
    ensures SameAt(WakeWorkload(env, c, ref, o, true, true).cluster, WakeTypes(env, c, types, o, fates).cluster, ref)
  {
    var n := |types| - 1;
    var p := WakeTypes(env, c, types[..n], o, fates[..n]);
    assert ref.kind == types[k].kind by { assert AllOfKind(types[k]); }
    if k < n {
      EachTypeWakesAlone(env, c, types[..n], o, fates[..n], k, ref);
      OtherType(types, n, ref);
      WakeListTouchesItems(env, p.cluster, types[n].items, o, fates[n], ref);
    } else {
      OtherTypesWakeNothing(env, c, types[..n], o, fates[..n], ref);
      var i :| 0 <= i < |types[n].items| && types[n].items[i] == ref;
      EachListedWakesAlone(env, p.cluster, types[n].items, o, i);
      WakeIsLocal(env, c, p.cluster, ref, o);
    }
  }
}
