/**
 * A whole night: a hibernating reconcile over several workload types in which anything may fail, so that each type's
 * loop may stop anywhere while the next type still gets its turn, then a waking reconcile that succeeds.
 */
module Cycle {
  import opened Cluster
  import opened Autoscalers
  import opened Hibernation
  import opened Recovery
  import opened Controllers

  ghost predicate MarksOnlyBy(c: Cluster, o: Owner) {
    forall ref :: ref in c.workloads && Marked(c.workloads[ref]) ==> OwnerOf(c.workloads[ref]) == o
  }

  ghost predicate MarksOnlyIn(c: Cluster, items: seq<Ref>) {
    forall ref :: ref in c.workloads && Marked(c.workloads[ref]) ==> ref in items
  }

  predicate ValidAction(action: Action) {
    action.maxReplicas.Some? ==> IsCount(action.maxReplicas.value)
  }

  lemma HibernateKeepsSound(env: Env, c: Cluster, ref: Ref, action: Action, o: Owner, first: bool, second: bool)
    requires ValidEnv(env) && ClusterOk(c) && MarksOnlyBy(c, o) && o.kind != "" && ValidAction(action)
    ensures var d := HibernateWorkload(env, c, ref, action, o, first, second).cluster;
            && ClusterOk(d) && ViewOf(env, d) == ViewOf(env, c) && MarksOnlyBy(d, o)
            && forall r :: r in c.workloads && r != ref ==> r in d.workloads && d.workloads[r] == c.workloads[r]
  {
    HibernateCallIsSound(env, c, ref, action, o, first, second);
    HibernateTouchesOne(env, c, ref, action, o, first, second);
    HibernateMarks(env, c, ref, action, o, first, second);
    MarksStayOwn(c, HibernateWorkload(env, c, ref, action, o, first, second).cluster, ref, o);
  }

  lemma MarksStayOwn(c: Cluster, d: Cluster, ref: Ref, o: Owner)
    requires MarksOnlyBy(c, o) && d.workloads.Keys == c.workloads.Keys
    requires forall r :: r in c.workloads && r != ref ==> d.workloads[r] == c.workloads[r]
    requires ref in c.workloads && Marked(c.workloads[ref]) ==> d.workloads[ref] == c.workloads[ref]
    requires ref in c.workloads && !Marked(c.workloads[ref]) && Marked(d.workloads[ref]) ==>
               OwnerOf(d.workloads[ref]) == o
    ensures MarksOnlyBy(d, o)
  {
  }

  /** One call, whichever of its patches fail, keeps the cluster sound and every configuration recoverable. */
  lemma HibernateCallIsSound(env: Env, c: Cluster, ref: Ref, action: Action, o: Owner, first: bool, second: bool)
    requires ValidEnv(env) && ClusterOk(c) && o.kind != "" && ValidAction(action)
    ensures var d := HibernateWorkload(env, c, ref, action, o, first, second).cluster;
            ClusterOk(d) && ViewOf(env, d) == ViewOf(env, c)
  {
    KindsApart(ref.kind);
    if ref in c.workloads {
      var w := c.workloads[ref];
      if IsReplicaKind(ref.kind) {
        if Marked(w) {
          SuspensionIsSound(env, c, ref, action, first);
        } else if ComputeTargetReplicas(action, Current(w)).Some? {
          var d := c.(workloads := c.workloads[ref := SleepReplicas(w, o, action.maxReplicas.value)]);
          SleepReplicasOk(env, ref, w, o, action.maxReplicas.value);
          ReplaceOk(env, c, ref, SleepReplicas(w, o, action.maxReplicas.value));
          SuspensionIsSound(env, d, ref, action, second);
        }
      } else if !Marked(w) {
        SleepDaemonOk(env, ref, w, o);
        ReplaceOk(env, c, ref, SleepDaemon(env, w, o));
      }
    }
  }

  lemma SuspensionIsSound(env: Env, c: Cluster, ref: Ref, action: Action, ok: bool)
    requires ClusterOk(c) && ref in c.workloads && IsReplicaKind(ref.kind) && Marked(c.workloads[ref])
    requires ValidAction(action)
    ensures action.maxReplicas.Some? ==>
              var d := Suspend(env, c, ref, action.maxReplicas.value, ok).cluster;
              ClusterOk(d) && ViewOf(env, d) == ViewOf(env, c)
  {
    if action.maxReplicas.Some? {
      SuspendOk(env, c, ref, action.maxReplicas.value, ok);
    }
  }

  lemma HibernateMarks(env: Env, c: Cluster, ref: Ref, action: Action, o: Owner, first: bool, second: bool)
    ensures var d := HibernateWorkload(env, c, ref, action, o, first, second).cluster;
            && (ref in d.workloads <==> ref in c.workloads)
            && (ref in c.workloads && Marked(c.workloads[ref]) ==> d.workloads[ref] == c.workloads[ref])
            && (ref in c.workloads && !Marked(c.workloads[ref]) && Marked(d.workloads[ref]) ==>
                 OwnerOf(d.workloads[ref]) == o)
  {
  }

  ghost predicate Night(env: Env, c: Cluster, t: Cluster, items: seq<Ref>, o: Owner) {
    && ClusterOk(t) && ViewOf(env, t) == ViewOf(env, c) && MarksOnlyBy(t, o) && MarksOnlyIn(t, items)
    && t.workloads.Keys == c.workloads.Keys
    && (forall ref :: ref in t.workloads ==> t.workloads[ref].deploymentOwned == c.workloads[ref].deploymentOwned)
    && (forall ref :: ref in t.workloads && Skipped(t, ref) ==> !Marked(t.workloads[ref]))
  }

  lemma NightItem(env: Env, c: Cluster, p: ListReport, items: seq<Ref>, ref: Ref, action: Action, o: Owner,
                  fate: CallFate)
    requires ValidEnv(env) && o.kind != "" && ValidAction(action) && Night(env, c, p.cluster, items, o)
    ensures Night(env, c, HibernateItem(env, p, ref, action, o, fate).cluster, items + [ref], o)
  {
    if !p.failed && !Skipped(p.cluster, ref) {
      HibernateKeepsSound(env, p.cluster, ref, action, o, fate.first, fate.second);
      HibernateTouchesOne(env, p.cluster, ref, action, o, fate.first, fate.second);
      OneMoreAsleep(env, c, p.cluster,
        HibernateWorkload(env, p.cluster, ref, action, o, fate.first, fate.second).cluster, items, ref, o);
    }
  }

  lemma OneMoreAsleep(env: Env, c: Cluster, p: Cluster, d: Cluster, items: seq<Ref>, ref: Ref, o: Owner)
    requires Night(env, c, p, items, o) && !Skipped(p, ref)
    requires ClusterOk(d) && ViewOf(env, d) == ViewOf(env, p) && MarksOnlyBy(d, o)
    requires d.workloads.Keys == p.workloads.Keys
    requires forall r :: r in p.workloads && r != ref ==> d.workloads[r] == p.workloads[r]
    requires ref in p.workloads ==> d.workloads[ref].deploymentOwned == p.workloads[ref].deploymentOwned
    ensures Night(env, c, d, items + [ref], o)
  {
  }

  /** One type's loop, stopping at its first error, goes on with the night. */
  lemma {:induction false} NightList(env: Env, c: Cluster, t: Cluster, listed: seq<Ref>, items: seq<Ref>,
                                     action: Action, o: Owner, fates: seq<CallFate>)
    requires ValidEnv(env) && o.kind != "" && ValidAction(action) && |fates| == |items| && Night(env, c, t, listed, o)
    ensures Night(env, c, HibernateList(env, t, items, action, o, fates).cluster, listed + items, o)
  {
    if items == [] {
      assert listed + items == listed;
    } else {
      var n := |items| - 1;
      NightList(env, c, t, listed, items[..n], action, o, fates[..n]);
      var p := HibernateList(env, t, items[..n], action, o, fates[..n]);
      NightItem(env, c, p, listed + items[..n], items[n], action, o, fates[n]);
      assert listed + items[..n] + [items[n]] == listed + items;
    }
  }

  lemma MoreListed(env: Env, c: Cluster, t: Cluster, listed: seq<Ref>, more: seq<Ref>, o: Owner)
    requires Night(env, c, t, listed, o)
    ensures Night(env, c, t, listed + more, o)
  {
  }

  /** The night: whatever fails, the cluster stays sound, keeps every configuration, and only listed workloads sleep. */
  lemma {:induction false} NightKeepsSound(env: Env, c: Cluster, types: seq<TypeListing>, action: Action, o: Owner,
                                           fates: seq<seq<CallFate>>)
    requires ValidEnv(env) && StartOk(c) && o.kind != "" && ValidAction(action) && FatesFor(types, fates)
    ensures Night(env, c, HibernateTypes(env, c, types, action, o, fates).cluster, AllItems(types), o)
  {
    StartIsOk(c);
    if types != [] {
      var n := |types| - 1;
      NightKeepsSound(env, c, types[..n], action, o, fates[..n]);
      var p := HibernateTypes(env, c, types[..n], action, o, fates[..n]);
      NightList(env, c, p.cluster, AllItems(types[..n]), types[n].items, action, o, fates[n]);
      MoreListed(env, c, p.cluster, AllItems(types[..n]), types[n].items, o);
    }
  }

  /** What a waking loop leaves: the view is the same, and nothing is marked but what was and is not listed. */
  ghost predicate Woken(env: Env, t: Cluster, d: Cluster, items: seq<Ref>, o: Owner) {
    && ClusterOk(d) && ViewOf(env, d) == ViewOf(env, t) && d.workloads.Keys == t.workloads.Keys && MarksOnlyBy(d, o)
    && (forall ref :: ref in d.workloads && Marked(d.workloads[ref]) ==> Marked(t.workloads[ref]) && ref !in items)
    && (forall ref :: Skipped(d, ref) <==> Skipped(t, ref))
  }

  ghost predicate SkippedAwake(t: Cluster) {
    forall ref :: ref in t.workloads && Skipped(t, ref) ==> !Marked(t.workloads[ref])
  }

  /** The morning of one type: everything listed is awake again, the rest is as it was. */
  lemma {:induction false} MorningWakes(env: Env, t: Cluster, items: seq<Ref>, o: Owner)
    requires ClusterOk(t) && MarksOnlyBy(t, o) && SkippedAwake(t)
    ensures Woken(env, t, WakeList(env, t, items, o, Good(|items|)).cluster, items, o)
  {
    if items != [] {
      var n := |items| - 1;
      MorningWakes(env, t, items[..n], o);
      assert Good(n + 1)[..n] == Good(n);
      WakesAgree(env, t, items[..n], o);
      WakeOneMore(env, t, WakeList(env, t, items[..n], o, Good(n)), items[..n], items[n], o);
      assert items == items[..n] + [items[n]];
    }
  }

  lemma WakeOneMore(env: Env, t: Cluster, p: Outcome, some: seq<Ref>, ref: Ref, o: Owner)
    requires Woken(env, t, p.cluster, some, o) && !p.failed && SkippedAwake(t)
    ensures Woken(env, t, WakeItem(env, p, ref, o, BOTH_LAND).cluster, some + [ref], o)
  {
    if !Skipped(p.cluster, ref) {
      WakeOneOf(env, p.cluster, ref, o);
      WakeTouchesOne(env, p.cluster, ref, o, true, true);
      OneMoreAwake(env, t, p.cluster, WakeWorkload(env, p.cluster, ref, o, true, true).cluster, some, ref, o);
    }
  }

  lemma OneMoreAwake(env: Env, t: Cluster, p: Cluster, d: Cluster, some: seq<Ref>, ref: Ref, o: Owner)
    requires Woken(env, t, p, some, o)
    requires ClusterOk(d) && ViewOf(env, d) == ViewOf(env, p) && d.workloads.Keys == p.workloads.Keys
    requires ref in d.workloads ==>
               !Marked(d.workloads[ref]) && d.workloads[ref].deploymentOwned == p.workloads[ref].deploymentOwned
    requires forall r :: r in p.workloads && r != ref ==> d.workloads[r] == p.workloads[r]
    ensures Woken(env, t, d, some + [ref], o)
  {
  }

  lemma WokenTwice(env: Env, t: Cluster, p: Cluster, d: Cluster, some: seq<Ref>, more: seq<Ref>, o: Owner)
    requires Woken(env, t, p, some, o) && Woken(env, p, d, more, o)
    ensures Woken(env, t, d, some + more, o)
  {
  }

  /** And of all types. */
  lemma {:induction false} MorningWakesAll(env: Env, t: Cluster, types: seq<TypeListing>, o: Owner)
    requires ClusterOk(t) && MarksOnlyBy(t, o) && SkippedAwake(t)
    ensures Woken(env, t, WakeTypes(env, t, types, o, AllGood(types)).cluster, AllItems(types), o)
    ensures !WakeTypes(env, t, types, o, AllGood(types)).failed
  {
    if types != [] {
      var n := |types| - 1;
      MorningWakesAll(env, t, types[..n], o);
      assert AllGood(types)[..n] == AllGood(types[..n]);
      var p := WakeTypes(env, t, types[..n], o, AllGood(types[..n])).cluster;
      assert SkippedAwake(p);
      MorningWakes(env, p, types[n].items, o);
      WakesAgree(env, p, types[n].items, o);
      WokenTwice(env, t, p, WakeTypes(env, t, types, o, AllGood(types)).cluster, AllItems(types[..n]),
        types[n].items, o);
    }
  }

  lemma WakeOneOf(env: Env, p: Cluster, ref: Ref, o: Owner)
    requires ClusterOk(p) && MarksOnlyBy(p, o)
    ensures var d := WakeWorkload(env, p, ref, o, true, true).cluster;
            && ClusterOk(d) && ViewOf(env, d) == ViewOf(env, p) && d.workloads.Keys == p.workloads.Keys
            && (ref in d.workloads ==> !Marked(d.workloads[ref]))
            && forall r :: r in p.workloads && r != ref ==> d.workloads[r] == p.workloads[r]
  {
    WakeTouchesOne(env, p, ref, o, true, true);
    if ref in p.workloads && Marked(p.workloads[ref]) {
      WakeRecovers(env, p, ref, o);
      assert WorkloadOk(ref, p.workloads[ref]);
      WakeFormIsView(env, ref, p.workloads[ref]);
    }
  }

  /**
   * Night and morning together give back every workload and every autoscaler of the cluster, whatever failed during the
   * night, provided the morning lists what the night listed.
   */
  lemma NightAndMorning(env: Env, c: Cluster, night: seq<TypeListing>, morning: seq<TypeListing>, action: Action,
                        o: Owner, fates: seq<seq<CallFate>>)
    requires ValidEnv(env) && StartOk(c) && o.kind != "" && ValidAction(action) && FatesFor(night, fates)
    requires forall ref :: ref in AllItems(night) ==> ref in AllItems(morning)
    ensures var t := HibernateTypes(env, c, night, action, o, fates).cluster;
            var r := WakeTypes(env, t, morning, o, AllGood(morning));
            && !r.failed
            && SameWorkloads(r.cluster, c)
            && |r.cluster.hpas| == |c.hpas|
            && forall i :: 0 <= i < |c.hpas| ==> SameAutoscaler(r.cluster.hpas[i], c.hpas[i])
  {
    NightKeepsSound(env, c, night, action, o, fates);
    var t := HibernateTypes(env, c, night, action, o, fates).cluster;
    MorningWakesAll(env, t, morning, o);
    AllAwakeMeansSame(env, c, WakeTypes(env, t, morning, o, AllGood(morning)).cluster);
  }

  /** Equal up to an unset replica count being written out as 1. */
  ghost predicate SameWorkloads(d: Cluster, c: Cluster) {
    && d.workloads.Keys == c.workloads.Keys
    && forall ref :: ref in c.workloads ==>
         Current(d.workloads[ref]) == Current(c.workloads[ref])
         && d.workloads[ref].selector == c.workloads[ref].selector
         && d.workloads[ref].annotations == c.workloads[ref].annotations
  }

  lemma AllAwakeMeansSame(env: Env, c: Cluster, d: Cluster)
    requires StartOk(c) && ClusterOk(d) && ViewOf(env, d) == ViewOf(env, c)
    requires forall ref :: ref in d.workloads ==> !Marked(d.workloads[ref])
    ensures SameWorkloads(d, c) && |d.hpas| == |c.hpas|
    ensures forall i :: 0 <= i < |c.hpas| ==> SameAutoscaler(d.hpas[i], c.hpas[i])
  {
    assert d.workloads.Keys == ViewOf(env, d).workloads.Keys == ViewOf(env, c).workloads.Keys == c.workloads.Keys;
    forall ref | ref in c.workloads
      ensures ViewWorkload(env, ref.kind, d.workloads[ref]) == ViewWorkload(env, ref.kind, c.workloads[ref])
      ensures d.workloads[ref].annotations == c.workloads[ref].annotations
    {
      assert ViewOf(env, d).workloads[ref] == ViewOf(env, c).workloads[ref];
      assert WorkloadOk(ref, d.workloads[ref]);
      assert UserPart(d.workloads[ref].annotations) == d.workloads[ref].annotations;
      assert UserPart(c.workloads[ref].annotations) == c.workloads[ref].annotations;
    }
    assert |ViewOf(env, d).hpas| == |ViewOf(env, c).hpas|;
    forall i | 0 <= i < |c.hpas|
      ensures SameAutoscaler(d.hpas[i], c.hpas[i])
    {
      assert ViewOf(env, d).hpas[i] == ViewOf(env, c).hpas[i];
      assert HpaOk(d.hpas[i]);
      SameViewAwake(d.hpas[i], c.hpas[i]);
    }
  }
}
