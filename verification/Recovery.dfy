/**
 * What holds over whole runs of the hibernation protocol: safety of suspended autoscalers, conservation of the
 * user's configuration, recovery from every half-finished call, and policies keeping out of each other's way.
 */
module Recovery {
  import opened Options
  import opened Cluster
  import opened Autoscalers
  import opened Hibernation
  import opened Protocol

  /**
   * The assumptions about the cluster before any policy ran: supported workloads under real names, none named
   * like a parking place, counts in range, one autoscaler per workload, and no annotation of the controllers.
   */
  ghost predicate StartOk(c: Cluster) {
    && Untouched(c)
    && OneHpaEach(c)
    && (forall ref :: ref in c.workloads ==>
          (IsReplicaKind(ref.kind) || ref.kind == DAEMON_SET) && ref.name != "" && !IsParkedName(ref.name)
          && (c.workloads[ref].replicas.Some? ==> IsCount(c.workloads[ref].replicas.value)))
    && (forall i :: 0 <= i < |c.hpas| ==>
          (c.hpas[i].min.Some? ==> IsCount(c.hpas[i].min.value)) && IsCount(c.hpas[i].max))
  }

  lemma StartIsOk(c: Cluster)
    requires StartOk(c)
    ensures SystemOk(System(c, map[]))
  {
  }

  /**
   * Safety: whatever fails and however policies interleave, a suspended autoscaler's workload is marked hibernated,
   * unless a marking patch lands on a workload another policy is at work on.
   */
  lemma SuspendedImpliesMarkedAlways(env: Env, c: Cluster, steps: seq<Step>)
    requires StartOk(c) && ValidSteps(steps) && NoClaimTaken(env, System(c, map[]), steps)
    ensures SuspendedImpliesMarked(Run(env, System(c, map[]), steps).cluster)
    ensures SystemOk(Run(env, System(c, map[]), steps))
  {
    StartIsOk(c);
    RunOk(env, System(c, map[]), steps);
  }

  // ---- Everything stays recoverable in every run, wherever patches land ----

  ghost predicate SelectorAgrees(env: Env, c: Cluster, ref: Ref, read: Workload) {
    ref in c.workloads
    && ViewWorkload(env, ref.kind, read).selector == ViewWorkload(env, ref.kind, c.workloads[ref]).selector
  }

  /** A read workload is well formed, fully marked if marked, and says what selector is configured. */
  ghost predicate ReadSound(env: Env, c: Cluster, ref: Ref, read: Workload) {
    WorkloadOk(ref, read) && FullyMarked(ref.kind, read) && SelectorAgrees(env, c, ref, read)
  }

  ghost predicate PcSound(env: Env, c: Cluster, pc: Pc) {
    match pc
    case Idle => true
    case SuspendPending(ref, target) => ref in c.workloads && IsReplicaKind(ref.kind) && IsCount(target)
    case ClearPending(ref, read) => ReadSound(env, c, ref, read) && Marked(read)
  }

  ghost predicate PolicySound(env: Env, c: Cluster, q: Policy) {
    PcSound(env, c, q.pc) && forall ref :: ref in q.listing ==> ReadSound(env, c, ref, q.listing[ref])
  }

  ghost predicate AllFullyMarked(c: Cluster) {
    forall ref :: ref in c.workloads ==> FullyMarked(ref.kind, c.workloads[ref])
  }

  /** What holds in every reachable state, also after safety was lost. */
  ghost predicate Sound(env: Env, s: System) {
    && Intact(s.cluster) && AllFullyMarked(s.cluster)
    && forall o :: o in s.policies ==> PolicySound(env, s.cluster, s.policies[o])
  }

  /** Every workload is still there and is to get back the selector it was to get back before. */
  ghost predicate SelectorsKept(env: Env, c: Cluster, d: Cluster) {
    forall ref :: ref in c.workloads ==> SelectorAgrees(env, d, ref, c.workloads[ref])
  }

  lemma PolicyStaysSound(env: Env, c: Cluster, d: Cluster, q: Policy)
    requires PolicySound(env, c, q) && SelectorsKept(env, c, d)
    ensures PolicySound(env, d, q)
  {
    if q.pc.ClearPending? {
      assert SelectorAgrees(env, d, q.pc.ref, c.workloads[q.pc.ref]);
    } else if q.pc.SuspendPending? {
      assert SelectorAgrees(env, d, q.pc.ref, c.workloads[q.pc.ref]);
    }
    forall ref | ref in q.listing
      ensures ReadSound(env, d, ref, q.listing[ref])
    {
      assert ReadSound(env, c, ref, q.listing[ref]) && SelectorAgrees(env, d, ref, c.workloads[ref]);
    }
  }

  /** A marking patch lands that saves a replica count the workload no longer had. */
  ghost predicate Outdated(env: Env, s: System, step: Step) {
    Lands(env, s, step) && IsReplicaKind(step.ref.kind)
    && Current(PolicyOf(s, step.owner).listing[step.ref])
       != ViewWorkload(env, step.ref.kind, s.cluster.workloads[step.ref]).replicas
  }

  lemma ReplacedView(env: Env, c: Cluster, ref: Ref, w: Workload)
    requires ref in c.workloads
    ensures ViewOf(env, c.(workloads := c.workloads[ref := w])) == ViewOf(env, c)
            <==> ViewWorkload(env, ref.kind, w) == ViewWorkload(env, ref.kind, c.workloads[ref])
  {
    var d := c.(workloads := c.workloads[ref := w]);
    assert ViewOf(env, d).workloads[ref] == ViewWorkload(env, ref.kind, w);
    assert ViewOf(env, c).workloads[ref] == ViewWorkload(env, ref.kind, c.workloads[ref]);
    assert d.workloads.Keys == c.workloads.Keys;
  }

  lemma ListedIsSound(env: Env, s: System, o: Owner, ref: Ref)
    requires Sound(env, s) && CanBegin(s, o, ref)
    ensures ReadSound(env, s.cluster, ref, PolicyOf(s, o).listing[ref])
    ensures WorkloadOk(ref, s.cluster.workloads[ref]) && FullyMarked(ref.kind, s.cluster.workloads[ref])
  {
    assert PolicySound(env, s.cluster, PolicyOf(s, o));
  }

  /** What a marking patch leaves, for a read and a live workload that agree on the configured selector. */
  lemma MarkedSoundly(env: Env, c: Cluster, ref: Ref, read: Workload, o: Owner, action: Action)
    requires ValidEnv(env) && ref in c.workloads && WorkloadOk(ref, c.workloads[ref])
    requires FullyMarked(ref.kind, c.workloads[ref]) && ReadSound(env, c, ref, read)
    requires o.kind != "" && (action.maxReplicas.Some? ==> IsCount(action.maxReplicas.value))
    requires WantedMark(env, ref, read, o, action).Some?
    ensures var live, w := c.workloads[ref],
            MergeWorkload(read, WantedMark(env, ref, read, o, action).value, c.workloads[ref]);
            && WorkloadOk(ref, w) && FullyMarked(ref.kind, w) && MarkedBy(w, o)
            && ViewWorkload(env, ref.kind, w).selector == ViewWorkload(env, ref.kind, live).selector
            && (ViewWorkload(env, ref.kind, w) == ViewWorkload(env, ref.kind, live)
                <==> IsReplicaKind(ref.kind) ==> Current(read) == ViewWorkload(env, ref.kind, live).replicas)
  {
    KindsApart(ref.kind);
    MarkMerges(env, ref, read, c.workloads[ref], o, action);
  }

  /** What a marking patch saves is exactly what was configured, except when the count it read is outdated. */
  lemma MarkKeepsViewIff(env: Env, s: System, step: Step)
    requires ValidEnv(env) && Sound(env, s) && ValidStep(step) && Lands(env, s, step)
    ensures ViewOf(env, Next(env, s, step).cluster) == ViewOf(env, s.cluster) <==> !Outdated(env, s, step)
    ensures Intact(Next(env, s, step).cluster) && AllFullyMarked(Next(env, s, step).cluster)
    ensures SelectorsKept(env, s.cluster, Next(env, s, step).cluster)
  {
    var o, ref := step.owner, step.ref;
    var read, live := PolicyOf(s, o).listing[ref], s.cluster.workloads[ref];
    ListedIsSound(env, s, o, ref);
    MarkedSoundly(env, s.cluster, ref, read, o, step.action);
    LandingStep(env, s, step);
    ReplacedSoundly(env, s.cluster, ref, MergeWorkload(read, WantedMark(env, ref, read, o, step.action).value, live));
  }

  lemma LandingStep(env: Env, s: System, step: Step)
    requires Lands(env, s, step)
    ensures var o, ref, c := step.owner, step.ref, s.cluster;
            var read := PolicyOf(s, o).listing[ref];
            Next(env, s, step).cluster
            == c.(workloads := c.workloads[
                    ref := MergeWorkload(read, WantedMark(env, ref, read, o, step.action).value, c.workloads[ref])])
  {
  }

  lemma ReplacedSoundly(env: Env, c: Cluster, ref: Ref, w: Workload)
    requires Intact(c) && AllFullyMarked(c) && ref in c.workloads && WorkloadOk(ref, w) && FullyMarked(ref.kind, w)
    requires ViewWorkload(env, ref.kind, w).selector == ViewWorkload(env, ref.kind, c.workloads[ref]).selector
    ensures var d := c.(workloads := c.workloads[ref := w]);
            && Intact(d) && AllFullyMarked(d) && SelectorsKept(env, c, d)
            && (ViewOf(env, d) == ViewOf(env, c)
                <==> ViewWorkload(env, ref.kind, w) == ViewWorkload(env, ref.kind, c.workloads[ref]))
  {
    ReplacedView(env, c, ref, w);
    ReplaceIntact(env, c, ref, w);
  }

  /** What a clearing patch leaves, for a read and a live workload that agree on the configured selector. */
  lemma ClearedSoundly(env: Env, c: Cluster, pc: Pc)
    requires Intact(c) && AllFullyMarked(c) && PcSound(env, c, pc) && pc.ClearPending?
    ensures var live, w := c.workloads[pc.ref], Cleared(env, c, pc);
            && WorkloadOk(pc.ref, w) && !Marked(w)
            && ViewWorkload(env, pc.ref.kind, w).user == ViewWorkload(env, pc.ref.kind, live).user
            && ViewWorkload(env, pc.ref.kind, w).selector == ViewWorkload(env, pc.ref.kind, live).selector
            && w.replicas == (if IsReplicaKind(pc.ref.kind) && pc.read.replicas != Some(SavedReplicas(pc.read))
                              then Some(SavedReplicas(pc.read)) else live.replicas)
  {
    KindsApart(pc.ref.kind);
    var live := c.workloads[pc.ref];
    assert WorkloadOk(pc.ref, live) && FullyMarked(pc.ref.kind, live);
    ClearMerges(env, pc.ref, pc.read, live);
    assert UserPart(UserPart(live.annotations)) == UserPart(live.annotations);
  }

  lemma ClearKeepsSound(env: Env, s: System, step: Step)
    requires Sound(env, s) && Clears(s, step)
    ensures Intact(Next(env, s, step).cluster) && AllFullyMarked(Next(env, s, step).cluster)
    ensures SelectorsKept(env, s.cluster, Next(env, s, step).cluster)
  {
    var pc := PcOf(s, step.owner);
    assert PolicySound(env, s.cluster, PolicyOf(s, step.owner));
    ClearedSoundly(env, s.cluster, pc);
    ReplaceIntact(env, s.cluster, pc.ref, Cleared(env, s.cluster, pc));
  }

  /** A controller step that neither marks nor clears. */
  predicate IsQuiet(env: Env, s: System, step: Step) {
    IsController(step) && !Lands(env, s, step) && !Clears(s, step)
  }

  lemma QuietStepKeepsWorkloads(env: Env, s: System, step: Step)
    requires IsQuiet(env, s, step)
    ensures Next(env, s, step).cluster.workloads == s.cluster.workloads
  {
  }

  /** Suspending and restoring keep every configuration, wherever the workload stands by now. */
  lemma QuietStepConserves(env: Env, s: System, step: Step)
    requires Sound(env, s) && IsQuiet(env, s, step)
    ensures Intact(Next(env, s, step).cluster)
    ensures ViewOf(env, Next(env, s, step).cluster) == ViewOf(env, s.cluster)
  {
    var q := PolicyOf(s, step.owner);
    assert PolicySound(env, s.cluster, q);
    if step.FinishHibernate? && q.pc.SuspendPending? {
      SuspendIntact(env, s.cluster, q.pc.ref, q.pc.target, step.ok);
    } else if step.BeginWake? && CanBegin(s, step.owner, step.ref) {
      RestoreIntact(env, s.cluster, step.ref, step.ok);
    }
  }

  lemma EditKeepsSound(env: Env, s: System, step: Step)
    requires Sound(env, s) && ValidStep(step) && !IsController(step)
    ensures Intact(Next(env, s, step).cluster) && AllFullyMarked(Next(env, s, step).cluster)
    ensures SelectorsKept(env, s.cluster, Next(env, s, step).cluster)
  {
    var c, t := s.cluster, Next(env, s, step);
    if t != s {
      match step {
        case Rebound(i, min, max) =>
          assert HpaOk(c.hpas[i]) && HpaOk(t.cluster.hpas[i]);
          assert forall j :: 0 <= j < |c.hpas| ==>
            TargetRef(t.cluster.hpas[j]) == TargetRef(c.hpas[j])
              && Suspended(t.cluster.hpas[j]) == Suspended(c.hpas[j]);
        case Rescale(ref, _) => EditIsSound(env, c, ref, t.cluster.workloads[ref]);
        case Annotate(ref, _, _) => EditIsSound(env, c, ref, t.cluster.workloads[ref]);
      }
    }
  }

  lemma EditIsSound(env: Env, c: Cluster, ref: Ref, w: Workload)
    requires Intact(c) && AllFullyMarked(c) && ref in c.workloads
    requires SameMarks(w.annotations, c.workloads[ref].annotations)
    requires w.selector == c.workloads[ref].selector && (w.replicas.Some? ==> IsCount(w.replicas.value))
    ensures var d := c.(workloads := c.workloads[ref := w]);
            Intact(d) && AllFullyMarked(d) && SelectorsKept(env, c, d)
  {
    var before := c.workloads[ref];
    assert WorkloadOk(ref, before) && FullyMarked(ref.kind, before);
    SameMarksSameMeaning(w, before);
    assert forall k :: k in w.annotations && !k.User? ==> k in before.annotations;
    assert WorkloadOk(ref, w);
    ReplaceIntact(env, c, ref, w);
  }

  lemma StepKeepsIntact(env: Env, s: System, step: Step)
    requires ValidEnv(env) && Sound(env, s) && ValidStep(step)
    ensures Intact(Next(env, s, step).cluster) && AllFullyMarked(Next(env, s, step).cluster)
    ensures SelectorsKept(env, s.cluster, Next(env, s, step).cluster)
  {
    if Lands(env, s, step) {
      MarkKeepsViewIff(env, s, step);
    } else if Clears(s, step) {
      ClearKeepsSound(env, s, step);
    } else if IsController(step) {
      QuietStepConserves(env, s, step);
      QuietStepKeepsWorkloads(env, s, step);
    } else {
      EditKeepsSound(env, s, step);
    }
  }

  /** What a policy makes of its own state in a step is sound for the cluster as it was before. */
  lemma OwnPolicySound(env: Env, s: System, step: Step)
    requires Sound(env, s) && ValidStep(step) && IsController(step)
    ensures PolicySound(env, s.cluster, PolicyOf(Next(env, s, step), step.owner))
  {
    var o := step.owner;
    var q := PolicyOf(s, o);
    assert PolicySound(env, s.cluster, q);
    if step.List? && q.pc == Idle {
      assert PolicyOf(Next(env, s, step), o) == Policy(Idle, s.cluster.workloads);
    }
  }

  lemma OthersKeepPolicy(env: Env, s: System, step: Step)
    ensures forall p :: p in Next(env, s, step).policies && !(IsController(step) && p == step.owner) ==>
              p in s.policies && Next(env, s, step).policies[p] == s.policies[p]
  {
  }

  lemma NextSound(env: Env, s: System, step: Step)
    requires ValidEnv(env) && Sound(env, s) && ValidStep(step)
    ensures Sound(env, Next(env, s, step))
  {
    var t := Next(env, s, step);
    StepKeepsIntact(env, s, step);
    OthersKeepPolicy(env, s, step);
    if IsController(step) {
      OwnPolicySound(env, s, step);
    }
    forall p | p in t.policies
      ensures PolicySound(env, t.cluster, t.policies[p])
    {
      PolicyStaysSound(env, s.cluster, t.cluster, t.policies[p]);
    }
  }

  /** In every run whatever, everything saved can be put back. */
  lemma {:induction false} SoundAlways(env: Env, c: Cluster, steps: seq<Step>)
    requires ValidEnv(env) && StartOk(c) && ValidSteps(steps)
    ensures Sound(env, Run(env, System(c, map[]), steps))
  {
    StartIsOk(c);
    if steps != [] {
      var n := |steps| - 1;
      SoundAlways(env, c, steps[..n]);
      NextSound(env, Run(env, System(c, map[]), steps[..n]), steps[n]);
    }
  }

  // ---- Conservation ----

  /** While nobody rescales it, a sleeping workload runs with fewer replicas than were saved. */
  ghost predicate Capped(kind: string, w: Workload) {
    IsReplicaKind(kind) && Marked(w) ==> w.replicas.Some? && w.replicas.value < SavedReplicas(w)
  }

  /** A read workload says what count is configured. */
  ghost predicate CountAgrees(env: Env, c: Cluster, ref: Ref, read: Workload) {
    && ref in c.workloads && Capped(ref.kind, read)
    && ViewWorkload(env, ref.kind, read).replicas == ViewWorkload(env, ref.kind, c.workloads[ref]).replicas
  }

  ghost predicate PolicyFresh(env: Env, c: Cluster, q: Policy) {
    && (q.pc.ClearPending? ==> CountAgrees(env, c, q.pc.ref, q.pc.read))
    && forall ref :: ref in q.listing ==> CountAgrees(env, c, ref, q.listing[ref])
  }

  ghost predicate AllCapped(c: Cluster) {
    forall ref :: ref in c.workloads ==> Capped(ref.kind, c.workloads[ref])
  }

  ghost predicate ReadsFresh(env: Env, s: System) {
    AllCapped(s.cluster) && forall o :: o in s.policies ==> PolicyFresh(env, s.cluster, s.policies[o])
  }

  lemma SameViewSameCount(env: Env, c: Cluster, d: Cluster, ref: Ref)
    requires ViewOf(env, d) == ViewOf(env, c) && ref in c.workloads
    ensures ref in d.workloads
    ensures ViewWorkload(env, ref.kind, d.workloads[ref]) == ViewWorkload(env, ref.kind, c.workloads[ref])
  {
    assert ref in ViewOf(env, c).workloads.Keys;
    assert ViewOf(env, d).workloads[ref] == ViewOf(env, c).workloads[ref];
  }

  lemma PolicyStaysFresh(env: Env, c: Cluster, d: Cluster, q: Policy)
    requires PolicyFresh(env, c, q) && ViewOf(env, d) == ViewOf(env, c)
    ensures PolicyFresh(env, d, q)
  {
    if q.pc.ClearPending? {
      SameViewSameCount(env, c, d, q.pc.ref);
    }
    forall ref | ref in q.listing
      ensures CountAgrees(env, d, ref, q.listing[ref])
    {
      assert CountAgrees(env, c, ref, q.listing[ref]);
      SameViewSameCount(env, c, d, ref);
    }
  }

  lemma MarkConserves(env: Env, s: System, step: Step)
    requires ValidEnv(env) && Sound(env, s) && ReadsFresh(env, s) && ValidStep(step) && Lands(env, s, step)
    ensures ViewOf(env, Next(env, s, step).cluster) == ViewOf(env, s.cluster) && AllCapped(Next(env, s, step).cluster)
  {
    var o, ref := step.owner, step.ref;
    ListedIsSound(env, s, o, ref);
    assert PolicyFresh(env, s.cluster, PolicyOf(s, o));
    assert CountAgrees(env, s.cluster, ref, PolicyOf(s, o).listing[ref]);
    MarkKeepsViewIff(env, s, step);
    MarkMerges(env, ref, PolicyOf(s, o).listing[ref], s.cluster.workloads[ref], o, step.action);
  }

  lemma ClearConserves(env: Env, s: System, step: Step)
    requires Sound(env, s) && ReadsFresh(env, s) && Clears(s, step)
    ensures ViewOf(env, Next(env, s, step).cluster) == ViewOf(env, s.cluster) && AllCapped(Next(env, s, step).cluster)
  {
    var pc := PcOf(s, step.owner);
    assert PolicySound(env, s.cluster, PolicyOf(s, step.owner)) && PolicyFresh(env, s.cluster, PolicyOf(s, step.owner));
    ClearedSoundly(env, s.cluster, pc);
    KindsApart(pc.ref.kind);
    ReplacedView(env, s.cluster, pc.ref, Cleared(env, s.cluster, pc));
  }

  /** What a policy makes of its own state in a step is fresh for the cluster as it was before. */
  lemma OwnPolicyFresh(env: Env, s: System, step: Step)
    requires ReadsFresh(env, s) && IsController(step)
    ensures PolicyFresh(env, s.cluster, PolicyOf(Next(env, s, step), step.owner))
  {
    var o := step.owner;
    var q := PolicyOf(s, o);
    assert PolicyFresh(env, s.cluster, q);
    if step.List? && q.pc == Idle {
      assert PolicyOf(Next(env, s, step), o) == Policy(Idle, s.cluster.workloads);
    }
  }

  lemma ControllerStepConserves(env: Env, s: System, step: Step)
    requires ValidEnv(env) && Sound(env, s) && ReadsFresh(env, s) && ValidStep(step) && IsController(step)
    ensures ViewOf(env, Next(env, s, step).cluster) == ViewOf(env, s.cluster) && ReadsFresh(env, Next(env, s, step))
  {
    var t := Next(env, s, step);
    if Lands(env, s, step) {
      MarkConserves(env, s, step);
    } else if Clears(s, step) {
      ClearConserves(env, s, step);
    } else {
      QuietStepConserves(env, s, step);
      QuietStepKeepsWorkloads(env, s, step);
    }
    OthersKeepPolicy(env, s, step);
    OwnPolicyFresh(env, s, step);
    forall p | p in t.policies
      ensures PolicyFresh(env, t.cluster, t.policies[p])
    {
      PolicyStaysFresh(env, s.cluster, t.cluster, t.policies[p]);
    }
  }

  /**
   * Conservation: no run of the controllers, complete or cut short anywhere and wherever its patches land, loses
   * anything the user configured.
   */
  lemma {:induction false} ConfigurationConserved(env: Env, c: Cluster, steps: seq<Step>)
    requires ValidEnv(env) && StartOk(c) && ValidSteps(steps)
    requires forall i :: 0 <= i < |steps| ==> IsController(steps[i])
    ensures ViewOf(env, Run(env, System(c, map[]), steps).cluster) == ViewOf(env, c)
    ensures ReadsFresh(env, Run(env, System(c, map[]), steps)) && Sound(env, Run(env, System(c, map[]), steps))
  {
    SoundAlways(env, c, steps);
    if steps != [] {
      var n := |steps| - 1;
      ConfigurationConserved(env, c, steps[..n]);
      ControllerStepConserves(env, Run(env, System(c, map[]), steps[..n]), steps[n]);
    }
  }

  // ---- What is saved is what was there ----

  lemma NextKeepsKeys(env: Env, s: System, step: Step)
    ensures Next(env, s, step).cluster.workloads.Keys == s.cluster.workloads.Keys
    ensures |Next(env, s, step).cluster.hpas| == |s.cluster.hpas|
  {
  }

  /** The replica count the workload had at the last moment of the run at which it was not marked. */
  ghost function LastAwake(env: Env, s: System, steps: seq<Step>, ref: Ref): int {
    var t := Run(env, s, steps).cluster;
    if ref !in t.workloads then 0
    else if steps == [] || !Marked(t.workloads[ref]) then Current(t.workloads[ref])
    else LastAwake(env, s, steps[..|steps| - 1], ref)
  }

  /** The autoscaler's configuration at the last moment of the run at which it was not suspended. */
  ghost function LastFree(env: Env, s: System, steps: seq<Step>, i: nat): HpaView
    requires i < |Run(env, s, []).cluster.hpas|
  {
    var t := Run(env, s, steps).cluster;
    if i >= |t.hpas| || steps == [] then ViewHpa(s.cluster.hpas[i])
    else if !Suspended(t.hpas[i]) then ViewHpa(t.hpas[i])
    else LastFree(env, s, steps[..|steps| - 1], i)
  }

  /** Even when users and autoscalers edit workloads meanwhile, the count saved of a sleeping one does not move. */
  lemma StepKeepsSaved(env: Env, s: System, step: Step, ref: Ref)
    requires ValidEnv(env) && Sound(env, s) && ValidStep(step) && !Outdated(env, s, step)
    requires ref in s.cluster.workloads && IsReplicaKind(ref.kind)
    ensures ref in Next(env, s, step).cluster.workloads
    ensures var w, v := s.cluster.workloads[ref], Next(env, s, step).cluster.workloads[ref];
            Marked(v) ==> ViewWorkload(env, ref.kind, v).replicas == ViewWorkload(env, ref.kind, w).replicas
  {
    if Lands(env, s, step) {
      MarkKeepsViewIff(env, s, step);
      SameViewSameCount(env, s.cluster, Next(env, s, step).cluster, ref);
    } else if Clears(s, step) {
      var pc := PcOf(s, step.owner);
      assert PolicySound(env, s.cluster, PolicyOf(s, step.owner));
      ClearingUnmarks(env, pc.ref, pc.read, s.cluster.workloads[pc.ref]);
    } else if IsController(step) {
      QuietStepKeepsWorkloads(env, s, step);
    }
  }

  /** No marking patch of the run saves an outdated count. */
  ghost predicate NoneOutdated(env: Env, s: System, steps: seq<Step>) {
    steps == [] ||
    (NoneOutdated(env, s, steps[..|steps| - 1])
      && !Outdated(env, Run(env, s, steps[..|steps| - 1]), steps[|steps| - 1]))
  }

  /**
   * What a sleeping workload will get back is what it had when it was last awake, in every run in which no marking
   * patch saves an outdated count.
   */
  lemma {:induction false} SavedIsLastAwake(env: Env, c: Cluster, steps: seq<Step>, ref: Ref)
    requires ValidEnv(env) && StartOk(c) && ValidSteps(steps) && ref in c.workloads && IsReplicaKind(ref.kind)
    requires NoneOutdated(env, System(c, map[]), steps)
    ensures ref in Run(env, System(c, map[]), steps).cluster.workloads
    ensures ViewWorkload(env, ref.kind, Run(env, System(c, map[]), steps).cluster.workloads[ref]).replicas
            == LastAwake(env, System(c, map[]), steps, ref)
  {
    StartIsOk(c);
    if steps != [] {
      var n := |steps| - 1;
      SavedIsLastAwake(env, c, steps[..n], ref);
      SoundAlways(env, c, steps[..n]);
      StepKeepsSaved(env, Run(env, System(c, map[]), steps[..n]), steps[n], ref);
    }
  }

  /** And the selector it will get back is the one it started with, in every run whatever. */
  lemma {:induction false} SelectorConserved(env: Env, c: Cluster, steps: seq<Step>, ref: Ref)
    requires ValidEnv(env) && StartOk(c) && ValidSteps(steps) && ref in c.workloads
    ensures ref in Run(env, System(c, map[]), steps).cluster.workloads
    ensures ViewWorkload(env, ref.kind, Run(env, System(c, map[]), steps).cluster.workloads[ref]).selector
            == c.workloads[ref].selector
  {
    if steps != [] {
      var n := |steps| - 1;
      SelectorConserved(env, c, steps[..n], ref);
      SoundAlways(env, c, steps[..n]);
      var s := Run(env, System(c, map[]), steps[..n]);
      StepKeepsIntact(env, s, steps[n]);
      assert SelectorAgrees(env, Next(env, s, steps[n]).cluster, ref, s.cluster.workloads[ref]);
    }
  }

  lemma StepKeepsSuspended(env: Env, s: System, step: Step, i: nat)
    requires Sound(env, s) && i < |s.cluster.hpas|
    ensures i < |Next(env, s, step).cluster.hpas|
    ensures Suspended(Next(env, s, step).cluster.hpas[i]) ==>
              ViewHpa(Next(env, s, step).cluster.hpas[i]) == ViewHpa(s.cluster.hpas[i])
  {
    NextKeepsKeys(env, s, step);
    if IsQuiet(env, s, step) {
      QuietStepConserves(env, s, step);
      SameViewSameHpa(env, s.cluster, Next(env, s, step).cluster, i);
    } else {
      OnlyBoundsChange(env, s, step, i);
    }
  }

  lemma SameViewSameHpa(env: Env, c: Cluster, d: Cluster, i: nat)
    requires ViewOf(env, d) == ViewOf(env, c) && i < |c.hpas| && i < |d.hpas|
    ensures ViewHpa(d.hpas[i]) == ViewHpa(c.hpas[i])
  {
    assert ViewOf(env, d).hpas[i] == ViewOf(env, c).hpas[i];
  }

  lemma OnlyBoundsChange(env: Env, s: System, step: Step, i: nat)
    requires !IsQuiet(env, s, step) && i < |s.cluster.hpas|
    ensures i < |Next(env, s, step).cluster.hpas|
    ensures var h, g := s.cluster.hpas[i], Next(env, s, step).cluster.hpas[i];
            g.namespace == h.namespace && g.target == h.target && g.annotations == h.annotations
  {
  }

  /** What a suspended autoscaler will get back is what it had when it was last free, in every run whatever. */
  lemma {:induction false} SavedIsLastFree(env: Env, c: Cluster, steps: seq<Step>, i: nat)
    requires ValidEnv(env) && StartOk(c) && ValidSteps(steps) && i < |c.hpas|
    ensures i < |Run(env, System(c, map[]), steps).cluster.hpas|
    ensures ViewHpa(Run(env, System(c, map[]), steps).cluster.hpas[i]) == LastFree(env, System(c, map[]), steps, i)
  {
    StartIsOk(c);
    if steps != [] {
      var n := |steps| - 1;
      SavedIsLastFree(env, c, steps[..n], i);
      SoundAlways(env, c, steps[..n]);
      StepKeepsSuspended(env, Run(env, System(c, map[]), steps[..n]), steps[n], i);
    }
  }

  // ---- Recovery ----

  /**
   * From every reachable state, also one in which safety was lost, one failure-free wake by the owner gives the
   * workload and its autoscaler back as configured, leaves none of the controllers' annotations on either, and touches
   * nothing else.
   */
  lemma WakeRecovers(env: Env, c: Cluster, ref: Ref, o: Owner)
    requires Intact(c) && ref in c.workloads && Marked(c.workloads[ref]) && OwnerOf(c.workloads[ref]) == o
    ensures var r := WakeWorkload(env, c, ref, o, true, true);
            && !r.failed
            && Intact(r.cluster) && (SuspendedImpliesMarked(c) ==> SuspendedImpliesMarked(r.cluster))
            && ViewOf(env, r.cluster) == ViewOf(env, c)
            && r.cluster.workloads == c.workloads[ref := r.cluster.workloads[ref]]
            && IsAwakeAs(ref.kind, r.cluster.workloads[ref], ViewWorkload(env, ref.kind, c.workloads[ref]))
            && OnlyHpaOf(c, r.cluster, ref)
            && NoneSuspendedFor(r.cluster, ref)
            && forall i :: 0 <= i < |c.hpas| && TargetRef(c.hpas[i]) == ref && Suspended(c.hpas[i]) ==>
                 IsAsConfigured(r.cluster.hpas[i], ViewHpa(c.hpas[i]))
  {
    assert WorkloadOk(ref, c.workloads[ref]);
    KindsApart(ref.kind);
    var d := c;
    if ref.kind != DAEMON_SET {
      RestoreIntact(env, c, ref, true);
      d := Restore(c, ref, true).cluster;
    }
    assert NoneSuspendedFor(d, ref);
    WakeFormIsView(env, ref, c.workloads[ref]);
    ReplaceIntact(env, d, ref, WakeForm(env, ref.kind, c.workloads[ref]));
    StaysSafeOnWaking(c, d, WakeForm(env, ref.kind, c.workloads[ref]), ref);
  }

  lemma StaysSafeOnWaking(c: Cluster, d: Cluster, w: Workload, ref: Ref)
    requires OnlyHpaOf(c, d, ref) && d.workloads == c.workloads && ref in c.workloads && NoneSuspendedFor(d, ref)
    ensures SuspendedImpliesMarked(c) ==> SuspendedImpliesMarked(d.(workloads := d.workloads[ref := w]))
  {
    if SuspendedImpliesMarked(c) {
      forall i | 0 <= i < |d.hpas| && Suspended(d.hpas[i])
        ensures TargetRef(d.hpas[i]) != ref && TargetRef(d.hpas[i]) == TargetRef(c.hpas[i]) && d.hpas[i] == c.hpas[i]
      {
        assert TargetRef(d.hpas[i]) == TargetRef(c.hpas[i]);
      }
    }
  }

  /**
   * Where safety was lost and the workload is awake beside its suspended autoscaler, the next night and morning mend
   * it: whenever a policy puts the workload to sleep and wakes it again, its autoscaler comes back too.
   */
  lemma NextCycleMends(env: Env, c: Cluster, ref: Ref, action: Action, o: Owner)
    requires Intact(c) && ref in c.workloads && IsReplicaKind(ref.kind) && !Marked(c.workloads[ref]) && o.kind != ""
    requires action.maxReplicas.Some? && IsCount(action.maxReplicas.value)
    requires Current(c.workloads[ref]) > action.maxReplicas.value
    ensures var r := WakeWorkload(env, HibernateWorkload(env, c, ref, action, o, true, true).cluster,
            ref, o, true, true);
            && !r.failed && Intact(r.cluster) && ViewOf(env, r.cluster) == ViewOf(env, c)
            && ref in r.cluster.workloads && !Marked(r.cluster.workloads[ref])
            && Current(r.cluster.workloads[ref]) == Current(c.workloads[ref])
            && NoneSuspendedFor(r.cluster, ref)
  {
    var w, cap := c.workloads[ref], action.maxReplicas.value;
    var slept := SleepReplicas(w, o, cap);
    SleepReplicasOk(env, ref, w, o, cap);
    ReplaceIntact(env, c, ref, slept);
    var d := c.(workloads := c.workloads[ref := slept]);
    SuspendIntact(env, d, ref, cap, true);
    var e := Suspend(env, d, ref, cap, true).cluster;
    WakeRecovers(env, e, ref, o);
    WakeFormIsView(env, ref, slept);
  }

  /** Equal up to an unset minimum being written out as 1. */
  ghost predicate SameAutoscaler(h: Hpa, g: Hpa) {
    h.target == g.target && h.min.GetOr(1) == g.min.GetOr(1) && h.max == g.max && h.annotations == g.annotations
  }

  lemma SameViewAwake(h: Hpa, g: Hpa)
    requires HpaOk(h) && HpaOk(g) && !Suspended(h) && !Suspended(g) && ViewHpa(h) == ViewHpa(g)
    ensures SameAutoscaler(h, g)
  {
    assert UserPart(h.annotations) == h.annotations;
    assert UserPart(g.annotations) == g.annotations;
  }

  /** The same, from the state any controller run leaves, back to the workload the run began with ... */
  lemma WakeUndoesRun(env: Env, c: Cluster, steps: seq<Step>, ref: Ref, o: Owner)
    requires ValidEnv(env) && StartOk(c) && ValidSteps(steps)
    requires ref in c.workloads && forall i :: 0 <= i < |steps| ==> IsController(steps[i])
    requires AsleepBy(Run(env, System(c, map[]), steps).cluster, ref, o)
    ensures var r := WakeWorkload(env, Run(env, System(c, map[]), steps).cluster, ref, o, true, true);
            && !r.failed
            && ref in r.cluster.workloads
            && r.cluster.workloads[ref].annotations == c.workloads[ref].annotations
            && r.cluster.workloads[ref].selector == c.workloads[ref].selector
            && (IsReplicaKind(ref.kind) ==> r.cluster.workloads[ref].replicas == Some(Current(c.workloads[ref])))
            && NoneSuspendedFor(r.cluster, ref)
  {
    ConfigurationConserved(env, c, steps);
    var t := Run(env, System(c, map[]), steps).cluster;
    WakeRecovers(env, t, ref, o);
    AwakeAsAtStart(env, c, t, WakeWorkload(env, t, ref, o, true, true).cluster, ref);
  }

  lemma AwakeAsAtStart(env: Env, c: Cluster, t: Cluster, d: Cluster, ref: Ref)
    requires StartOk(c) && ref in c.workloads && ref in t.workloads && ref in d.workloads
    requires ViewOf(env, t) == ViewOf(env, c)
    requires IsAwakeAs(ref.kind, d.workloads[ref], ViewWorkload(env, ref.kind, t.workloads[ref]))
    ensures d.workloads[ref].annotations == c.workloads[ref].annotations
    ensures d.workloads[ref].selector == c.workloads[ref].selector
    ensures IsReplicaKind(ref.kind) ==> d.workloads[ref].replicas == Some(Current(c.workloads[ref]))
  {
    assert ViewOf(env, t).workloads[ref] == ViewOf(env, c).workloads[ref];
    assert UserPart(c.workloads[ref].annotations) == c.workloads[ref].annotations;
  }

  /** ... and to the autoscaler it began with. */
  lemma WakeUndoesRunOnHpa(env: Env, c: Cluster, steps: seq<Step>, ref: Ref, o: Owner, i: nat)
    requires ValidEnv(env) && StartOk(c) && ValidSteps(steps)
    requires ref in c.workloads && forall i :: 0 <= i < |steps| ==> IsController(steps[i])
    requires AsleepBy(Run(env, System(c, map[]), steps).cluster, ref, o)
    requires i < |c.hpas| && TargetRef(c.hpas[i]) == ref
    ensures var r := WakeWorkload(env, Run(env, System(c, map[]), steps).cluster, ref, o, true, true).cluster;
            i < |r.hpas| && SameAutoscaler(r.hpas[i], c.hpas[i])
  {
    ConfigurationConserved(env, c, steps);
    var t := Run(env, System(c, map[]), steps).cluster;
    WakeRecovers(env, t, ref, o);
    var r := WakeWorkload(env, t, ref, o, true, true).cluster;
    assert |ViewOf(env, t).hpas| == |ViewOf(env, c).hpas| == |ViewOf(env, r).hpas|;
    assert ViewOf(env, r).hpas[i] == ViewOf(env, t).hpas[i] == ViewOf(env, c).hpas[i];
    NamespacesStay(env, c, steps, i);
    assert TargetRef(t.hpas[i]) == ref && TargetRef(r.hpas[i]) == ref;
    assert HpaOk(r.hpas[i]);
    SameViewAwake(r.hpas[i], c.hpas[i]);
  }

  lemma {:induction false} NamespacesStay(env: Env, c: Cluster, steps: seq<Step>, i: nat)
    requires i < |c.hpas|
    ensures i < |Run(env, System(c, map[]), steps).cluster.hpas|
    ensures Run(env, System(c, map[]), steps).cluster.hpas[i].namespace == c.hpas[i].namespace
  {
    if steps != [] {
      NamespacesStay(env, c, steps[..|steps| - 1], i);
    }
  }

  /**
   * One failure-free hibernate of a workload its policy already owns suspends its autoscaler again and rewrites no
   * original.
   */
  lemma HibernateResumes(env: Env, c: Cluster, ref: Ref, action: Action, o: Owner)
    requires Intact(c) && ref in c.workloads && IsReplicaKind(ref.kind)
    requires Marked(c.workloads[ref]) && OwnerOf(c.workloads[ref]) == o
    requires action.maxReplicas.Some? && IsCount(action.maxReplicas.value)
    ensures var r := HibernateWorkload(env, c, ref, action, o, true, true);
            && !r.failed && r.reported
            && Intact(r.cluster) && (SuspendedImpliesMarked(c) ==> SuspendedImpliesMarked(r.cluster))
            && ViewOf(env, r.cluster) == ViewOf(env, c) && r.cluster.workloads == c.workloads
            && OnlyHpaOf(c, r.cluster, ref)
            && forall i :: 0 <= i < |c.hpas| && TargetRef(c.hpas[i]) == ref ==>
                 Suspended(r.cluster.hpas[i])
                 && (Suspended(c.hpas[i]) ==> r.cluster.hpas[i] == c.hpas[i])
  {
    SuspendIntact(env, c, ref, action.maxReplicas.value, true);
    if SuspendedImpliesMarked(c) {
      SuspendOk(env, c, ref, action.maxReplicas.value, true);
    }
    FindHpaFinds(c, ref);
  }
}
