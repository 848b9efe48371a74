/**
 * Any number of policies hibernating and waking workloads at once. A policy works from a listing read earlier, every
 * call is cut at each place where the API server can be observed between a read and a patch or between two patches,
 * every patch may fail, a policy may be abandoned anywhere, and users and autoscalers keep editing what is theirs.
 */
module Protocol {
  import opened Options
  import opened Text
  import opened Cluster
  import opened Autoscalers
  import opened Hibernation

  /** Where a policy stands inside one call. */
  datatype Pc =
    | Idle
    | SuspendPending(ref: Ref, target: int)      // workload marked, autoscaler still to be suspended
    | ClearPending(ref: Ref, read: Workload)     // autoscaler restored, workload still to be cleared

  /** A policy at work, and the workloads of its listing it has not come to yet, as they were read. */
  datatype Policy = Policy(pc: Pc, listing: map<Ref, Workload>)

  datatype System = System(cluster: Cluster, policies: map<Owner, Policy>)

  datatype Step =
    | List(owner: Owner)
    | BeginHibernate(owner: Owner, ref: Ref, action: Action, ok: bool)
    | FinishHibernate(owner: Owner, ok: bool)
    | BeginWake(owner: Owner, ref: Ref, ok: bool)
    | FinishWake(owner: Owner, ok: bool)
    | Abandon(owner: Owner)
    | Rescale(ref: Ref, replicas: int)
    | Rebound(hpa: nat, min: int, max: int)
    | Annotate(ref: Ref, key: string, value: string)

  predicate ValidStep(step: Step) {
    match step
    case BeginHibernate(o, _, action, _) =>
      o.kind != "" && (action.maxReplicas.Some? ==> IsCount(action.maxReplicas.value))
    case Rescale(_, n) => IsCount(n)
    case Rebound(_, min, max) => IsCount(min) && IsCount(max)
    case _ => true
  }

  predicate IsController(step: Step) {
    !step.Rescale? && !step.Rebound? && !step.Annotate?
  }

  function PolicyOf(s: System, o: Owner): Policy {
    if o in s.policies then s.policies[o] else Policy(Idle, map[])
  }

  function PcOf(s: System, o: Owner): Pc {
    PolicyOf(s, o).pc
  }

  function SetPolicy(s: System, o: Owner, q: Policy): System {
    s.(policies := s.policies[o := q])
  }

  function PutWorkload(s: System, ref: Ref, w: Workload): System {
    s.(cluster := s.cluster.(workloads := s.cluster.workloads[ref := w]))
  }

  /** A policy between two calls turns to the next workload of its listing. */
  predicate CanBegin(s: System, o: Owner, ref: Ref) {
    PcOf(s, o) == Idle && ref in PolicyOf(s, o).listing && ref in s.cluster.workloads
  }

  /** One step; a step that is not enabled changes nothing. */
  function Next(env: Env, s: System, step: Step): System {
    match step
    case List(o) => if PcOf(s, o) == Idle then SetPolicy(s, o, Policy(Idle, s.cluster.workloads)) else s
    case BeginHibernate(o, ref, action, ok) =>
      if CanBegin(s, o, ref) then NextHibernate(env, s, o, ref, action, ok) else s
    case FinishHibernate(o, ok) =>
      var q := PolicyOf(s, o);
      if !q.pc.SuspendPending? then s
      else SetPolicy(s.(cluster := Suspend(env, s.cluster, q.pc.ref, q.pc.target, ok).cluster), o, q.(pc := Idle))
    case BeginWake(o, ref, ok) => if CanBegin(s, o, ref) then NextWake(s, o, ref, ok) else s
    case FinishWake(o, ok) =>
      var q := PolicyOf(s, o);
      if !q.pc.ClearPending? then s
      else if !ok || q.pc.ref !in s.cluster.workloads then SetPolicy(s, o, q.(pc := Idle))
      else SetPolicy(PutWorkload(s, q.pc.ref, Cleared(env, s.cluster, q.pc)), o, q.(pc := Idle))
    case Abandon(o) => SetPolicy(s, o, Policy(Idle, map[]))
    case Rescale(ref, n) =>
      if ref !in s.cluster.workloads then s
      else PutWorkload(s, ref, s.cluster.workloads[ref].(replicas := Some(n)))
    case Rebound(i, min, max) =>
      if i >= |s.cluster.hpas| then s
      else s.(cluster := s.cluster.(hpas := s.cluster.hpas[i := s.cluster.hpas[i].(min := Some(min), max := max)]))
    case Annotate(ref, key, value) =>
      if ref !in s.cluster.workloads then s
      else
        var w := s.cluster.workloads[ref];
        PutWorkload(s, ref, w.(annotations := w.annotations[User(key) := value]))
  }

  /** What a policy wants to make of a workload it read unmarked, if it wants it asleep. */
  function WantedMark(env: Env, ref: Ref, read: Workload, o: Owner, action: Action): Option<Workload> {
    if Marked(read) then None
    else if IsReplicaKind(ref.kind) then
      match ComputeTargetReplicas(action, Current(read))
      case None => None
      case Some(target) => Some(SleepReplicas(read, o, target))
    else if ref.kind == DAEMON_SET && action.sleepDaemonSet then Some(SleepDaemon(env, read, o))
    else None
  }

  /** The marker was tested on the workload as it was listed; the marking patch merges into whatever is live. */
  function NextHibernate(env: Env, s: System, o: Owner, ref: Ref, action: Action, ok: bool): System
    requires CanBegin(s, o, ref)
  {
    var read, rest := PolicyOf(s, o).listing[ref], PolicyOf(s, o).listing - {ref};
    var pending :=
      if IsReplicaKind(ref.kind) && action.maxReplicas.Some? then SuspendPending(ref, action.maxReplicas.value)
      else Idle;
    match WantedMark(env, ref, read, o, action)
    case Some(want) =>
      var marked := MergeWorkload(read, want, s.cluster.workloads[ref]);
      if ok then SetPolicy(PutWorkload(s, ref, marked), o, Policy(pending, rest))
      else SetPolicy(s, o, Policy(Idle, rest))
    case None =>
      SetPolicy(s, o, Policy(if Marked(read) && OwnedBy(read, o) then pending else Idle, rest))
  }

  function NextWake(s: System, o: Owner, ref: Ref, ok: bool): System
    requires CanBegin(s, o, ref)
  {
    var read, rest := PolicyOf(s, o).listing[ref], PolicyOf(s, o).listing - {ref};
    if !Marked(read) || !OwnedBy(read, o) then SetPolicy(s, o, Policy(Idle, rest))
    else
      var r := if ref.kind == DAEMON_SET then Outcome(s.cluster, false) else Restore(s.cluster, ref, ok);
      SetPolicy(s.(cluster := r.cluster), o, Policy(if r.failed then Idle else ClearPending(ref, read), rest))
  }

  /** The clearing patch was computed from the workload as it was read before the autoscaler was restored. */
  function Cleared(env: Env, c: Cluster, pc: Pc): Workload
    requires pc.ClearPending? && pc.ref in c.workloads
  {
    MergeWorkload(pc.read, WakeForm(env, pc.ref.kind, pc.read), c.workloads[pc.ref])
  }

  function Run(env: Env, s: System, steps: seq<Step>): System {
    if steps == [] then s else Next(env, Run(env, s, steps[..|steps| - 1]), steps[|steps| - 1])
  }

  // ---- Marking patches that land late ----

  /** The step sends a marking patch, and it lands. */
  predicate Lands(env: Env, s: System, step: Step) {
    step.BeginHibernate? && step.ok && CanBegin(s, step.owner, step.ref)
    && WantedMark(env, step.ref, PolicyOf(s, step.owner).listing[step.ref], step.owner, step.action).Some?
  }

  /** It lands on a workload that has been marked since it was listed. */
  predicate LandsLate(env: Env, s: System, step: Step) {
    Lands(env, s, step) && Marked(s.cluster.workloads[step.ref])
  }

  /** The step sends a clearing patch, and it lands. */
  predicate Clears(s: System, step: Step) {
    step.FinishWake? && step.ok && PcOf(s, step.owner).ClearPending? && PcOf(s, step.owner).ref in s.cluster.workloads
  }

  predicate Busy(pc: Pc, ref: Ref) {
    !pc.Idle? && pc.ref == ref
  }

  /** The policy is putting the workload to sleep or waking it, or has it listed as its own. */
  ghost predicate Claims(q: Policy, o: Owner, ref: Ref) {
    Busy(q.pc, ref) || (ref in q.listing && MarkedBy(q.listing[ref], o))
  }

  ghost predicate ClaimedByOther(s: System, o: Owner, ref: Ref) {
    exists p :: p in s.policies && p != o && Claims(s.policies[p], p, ref)
  }

  /** It lands on a workload another policy is at work on. */
  ghost predicate LandsOnClaim(env: Env, s: System, step: Step) {
    LandsLate(env, s, step) && ClaimedByOther(s, step.owner, step.ref)
  }

  /** No marking patch of the run lands on a workload another policy is at work on. */
  ghost predicate NoClaimTaken(env: Env, s: System, steps: seq<Step>) {
    steps == [] ||
    (NoClaimTaken(env, s, steps[..|steps| - 1])
      && !LandsOnClaim(env, Run(env, s, steps[..|steps| - 1]), steps[|steps| - 1]))
  }

  /** No marking patch of the run lands late at all. */
  ghost predicate NoneLate(env: Env, s: System, steps: seq<Step>) {
    steps == [] ||
    (NoneLate(env, s, steps[..|steps| - 1]) && !LandsLate(env, Run(env, s, steps[..|steps| - 1]), steps[|steps| - 1]))
  }

  lemma {:induction false} NoneLateNoClaimTaken(env: Env, s: System, steps: seq<Step>)
    requires NoneLate(env, s, steps)
    ensures NoClaimTaken(env, s, steps)
  {
    if steps != [] {
      NoneLateNoClaimTaken(env, s, steps[..|steps| - 1]);
    }
  }

  // ---- The invariant ----

  ghost predicate SameMarks(a: Annotations, b: Annotations) {
    forall k: Key :: !k.User? ==> (k in a <==> k in b) && Get(a, k) == Get(b, k)
  }

  ghost predicate PcOk(c: Cluster, o: Owner, pc: Pc) {
    match pc
    case Idle => true
    case SuspendPending(ref, target) =>
      ref in c.workloads && IsReplicaKind(ref.kind) && IsCount(target) && MarkedBy(c.workloads[ref], o)
    case ClearPending(ref, read) =>
      && ref in c.workloads && MarkedBy(c.workloads[ref], o)
      && SameMarks(read.annotations, c.workloads[ref].annotations)
      && read.selector == c.workloads[ref].selector
      && (read.replicas.Some? ==> IsCount(read.replicas.value))
      && NoneSuspendedFor(c, ref)
  }

  /** What was listed as the policy's own still is, and what was listed unmarked the policy has not marked since. */
  ghost predicate ReadOk(c: Cluster, o: Owner, ref: Ref, read: Workload) {
    && ref in c.workloads && WorkloadOk(ref, read)
    && (MarkedBy(read, o) ==>
      && MarkedBy(c.workloads[ref], o)
      && SameMarks(read.annotations, c.workloads[ref].annotations)
      && read.selector == c.workloads[ref].selector)
    && (!Marked(read) ==> !MarkedBy(c.workloads[ref], o))
  }

  ghost predicate PolicyOk(c: Cluster, o: Owner, q: Policy) {
    && PcOk(c, o, q.pc)
    && forall ref :: ref in q.listing ==> ReadOk(c, o, ref, q.listing[ref]) && !Busy(q.pc, ref)
  }

  ghost predicate SystemOk(s: System) {
    && ClusterOk(s.cluster)
    && forall o :: o in s.policies ==> PolicyOk(s.cluster, o, s.policies[o])
  }

  /** Only its owner is at work on a sleeping workload, and nobody on one that is awake. */
  lemma ClaimsOwn(c: Cluster, o: Owner, q: Policy, ref: Ref)
    requires PolicyOk(c, o, q) && Claims(q, o, ref)
    ensures ref in c.workloads && MarkedBy(c.workloads[ref], o)
  {
    if ref in q.listing && MarkedBy(q.listing[ref], o) {
      assert ReadOk(c, o, ref, q.listing[ref]);
    }
  }

  /** A policy is unaffected by what happens to workloads it is not at work on. */
  lemma PolicyStable(c: Cluster, d: Cluster, ref: Ref, o: Owner, q: Policy)
    requires PolicyOk(c, o, q) && !Claims(q, o, ref)
    requires ref in c.workloads && ref in d.workloads && d.workloads == c.workloads[ref := d.workloads[ref]]
    requires OnlyHpaOf(c, d, ref)
    requires ref in q.listing && !Marked(q.listing[ref]) ==> !MarkedBy(d.workloads[ref], o)
    ensures PolicyOk(d, o, q)
  {
    forall r | r in q.listing
      ensures ReadOk(d, o, r, q.listing[r])
    {
      assert ReadOk(c, o, r, q.listing[r]);
    }
  }

  /** The same for a policy that has just turned to the workload, or is done with it. */
  lemma OwnPolicyStable(c: Cluster, d: Cluster, ref: Ref, o: Owner, q: Policy, pc: Pc)
    requires PolicyOk(c, o, q) && (Busy(q.pc, ref) || q.pc == Idle)
    requires ref in c.workloads && ref in d.workloads && d.workloads == c.workloads[ref := d.workloads[ref]]
    requires OnlyHpaOf(c, d, ref) && PcOk(d, o, pc) && (Busy(pc, ref) || pc == Idle)
    ensures PolicyOk(d, o, Policy(pc, q.listing - {ref}))
  {
    forall r | r in q.listing && r != ref
      ensures ReadOk(d, o, r, q.listing[r])
    {
      assert ReadOk(c, o, r, q.listing[r]);
    }
  }

  /** So a step of o on a workload nobody else is at work on, leaving it awake or o's own, keeps all policies sound. */
  lemma StepKeepsPolicies(s: System, t: System, ref: Ref, o: Owner, pc: Pc)
    requires SystemOk(s) && ClusterOk(t.cluster) && !ClaimedByOther(s, o, ref)
    requires var q := PolicyOf(s, o);
             t.policies == s.policies[o := Policy(pc, q.listing - {ref})] && (Busy(q.pc, ref) || q.pc == Idle)
    requires var c, d := s.cluster, t.cluster;
             && ref in c.workloads && ref in d.workloads && d.workloads == c.workloads[ref := d.workloads[ref]]
             && OnlyHpaOf(c, d, ref) && PcOk(d, o, pc) && (Busy(pc, ref) || pc == Idle)
             && (Marked(d.workloads[ref]) ==> OwnerOf(d.workloads[ref]) == o || d.workloads[ref] == c.workloads[ref])
    ensures SystemOk(t)
  {
    OwnPolicyStable(s.cluster, t.cluster, ref, o, PolicyOf(s, o), pc);
    forall p | p in s.policies && p != o
      ensures PolicyOk(t.cluster, p, s.policies[p])
    {
      assert PolicyOk(s.cluster, p, s.policies[p]);
      assert ref in s.policies[p].listing ==> ReadOk(s.cluster, p, ref, s.policies[p].listing[ref]);
      PolicyStable(s.cluster, t.cluster, ref, p, s.policies[p]);
    }
  }

  // ---- What the patches leave ----

  lemma OnlyMarksChange(kind: string, base: Annotations, o: Owner, saved: string, k: Key)
    requires NoControllerKeys(base)
    ensures Changed(base, MarkHibernated(base[OriginalKey(kind) := saved], o), k)
            <==> k in {Hibernated, ByKind, ByName, ByNamespace, OriginalKey(kind)}
  {
  }

  /**
   * The markers a marking patch leaves: the policy's own, over those of anyone else, beside the user's live
   * annotations.
   */
  lemma MarksMerge(kind: string, base: Annotations, live: Annotations, o: Owner, saved: string)
    requires NoControllerKeys(base)
    requires forall k :: k in live ==> k.User? || k in {Hibernated, ByKind, ByName, ByNamespace, OriginalKey(kind)}
    ensures MergeAnnotations(base, MarkHibernated(base[OriginalKey(kind) := saved], o), live)
            == MarkHibernated(UserPart(live)[OriginalKey(kind) := saved], o)
  {
    var want := MarkHibernated(base[OriginalKey(kind) := saved], o);
    var merged := MergeAnnotations(base, want, live);
    var marked := MarkHibernated(UserPart(live)[OriginalKey(kind) := saved], o);
    forall k: Key
      ensures (k in merged <==> k in marked) && (k in merged ==> merged[k] == marked[k])
    {
      OnlyMarksChange(kind, base, o, saved, k);
    }
  }

  lemma MarkedAnnotations(kind: string, user: Annotations, o: Owner, saved: string)
    requires NoControllerKeys(user) && o.kind != ""
    ensures var a := MarkHibernated(user[OriginalKey(kind) := saved], o);
            && Get(a, Hibernated) == TRUE_VALUE && Get(a, ByKind) == o.kind && Get(a, ByName) == o.name
            && Get(a, ByNamespace) == o.namespace && Get(a, OriginalKey(kind)) == saved
            && (forall k :: k in a ==> k.User? || k in {Hibernated, ByKind, ByName, ByNamespace, OriginalKey(kind)})
            && (forall k :: k in {Hibernated, ByKind, ByName, ByNamespace, OriginalKey(kind)} ==> k in a)
            && UserPart(a) == user
  {
  }

  /** What the marking patch leaves, whatever happened to the workload since it was listed. */
  lemma MarkMerges(env: Env, ref: Ref, read: Workload, live: Workload, o: Owner, action: Action)
    requires WorkloadOk(ref, read) && WorkloadOk(ref, live) && o.kind != ""
    requires action.maxReplicas.Some? ==> IsCount(action.maxReplicas.value)
    requires WantedMark(env, ref, read, o, action).Some?
    ensures var w := MergeWorkload(read, WantedMark(env, ref, read, o, action).value, live);
            && WorkloadOk(ref, w) && MarkedBy(w, o)
            && UserPart(w.annotations) == UserPart(live.annotations)
            && (forall k :: k in {Hibernated, ByKind, ByName, ByNamespace, OriginalKey(ref.kind)} ==>
                 k in w.annotations)
            && (IsReplicaKind(ref.kind) ==>
                 SavedReplicas(w) == Current(read) && w.selector == live.selector && w.replicas == action.maxReplicas)
            && (ref.kind == DAEMON_SET ==>
                 && SavedSelectorText(w) == env.encode(read.selector) && w.replicas == live.replicas
                 && w.selector == (if read.selector == HIBERNATE_SELECTOR then live.selector else HIBERNATE_SELECTOR))
  {
    KindsApart(ref.kind);
    CountRoundTrip(Current(read));
    var saved := if ref.kind == DAEMON_SET then env.encode(read.selector) else Itoa(Current(read));
    var user := UserPart(live.annotations);
    MarksMerge(ref.kind, read.annotations, live.annotations, o, saved);
    MarkedAnnotations(ref.kind, user, o, saved);
  }

  function SavedSelectorText(w: Workload): string {
    Get(w.annotations, OriginalNodeSelector)
  }

  /** A marker as a marking patch leaves it: all five annotations, and on a daemon set the selector no node carries. */
  ghost predicate FullyMarked(kind: string, w: Workload) {
    Marked(w) ==>
      && (forall k :: k in {Hibernated, ByKind, ByName, ByNamespace, OriginalKey(kind)} ==> k in w.annotations)
      && (kind == DAEMON_SET ==> w.selector == HIBERNATE_SELECTOR)
  }

  lemma MarksClear(kind: string, base: Annotations, live: Annotations)
    requires forall k :: k in {Hibernated, ByKind, ByName, ByNamespace, OriginalKey(kind)} ==> k in base
    requires forall k :: k in live ==> k.User? || k in {Hibernated, ByKind, ByName, ByNamespace, OriginalKey(kind)}
    ensures MergeAnnotations(base, ClearHibernated(base) - {OriginalKey(kind)}, live) == UserPart(live)
  {
    var want := ClearHibernated(base) - {OriginalKey(kind)};
    forall k: Key
      ensures Changed(base, want, k) <==> k in {Hibernated, ByKind, ByName, ByNamespace, OriginalKey(kind)}
    {
    }
  }

  /**
   * What the clearing patch leaves, whatever happened to the workload since it was read: no marker, the user's live
   * annotations, and the saved original, but that a merge patch omits what it does not change.
   */
  lemma ClearMerges(env: Env, ref: Ref, read: Workload, live: Workload)
    requires WorkloadOk(ref, read) && Marked(read) && FullyMarked(ref.kind, read) && WorkloadOk(ref, live)
    ensures var w := MergeWorkload(read, WakeForm(env, ref.kind, read), live);
            && WorkloadOk(ref, w) && !Marked(w) && w.annotations == UserPart(live.annotations)
            && (IsReplicaKind(ref.kind) ==>
                 && w.selector == live.selector
                 && w.replicas == (if read.replicas == Some(SavedReplicas(read)) then live.replicas
                    else Some(SavedReplicas(read))))
            && (ref.kind == DAEMON_SET ==>
                 && w.replicas == live.replicas
                 && w.selector == (if read.selector == SavedSelector(env, read) then live.selector
                    else SavedSelector(env, read)))
  {
    KindsApart(ref.kind);
    MarksClear(ref.kind, read.annotations, live.annotations);
  }

  /**
   * What the clearing patch leaves, although the workload may have been edited since it was read: no marker,
   * the saved selector, the user's live annotations, and the saved count. The one exception is exact: a merge
   * patch omits a field whose wanted value equals the value read, so a rescale in between survives when the
   * count read was already the saved one.
   */
  lemma ClearedIsView(env: Env, c: Cluster, o: Owner, pc: Pc)
    requires ClusterOk(c) && PcOk(c, o, pc) && pc.ClearPending?
    ensures WorkloadOk(pc.ref, Cleared(env, c, pc)) && !Marked(Cleared(env, c, pc))
    ensures Cleared(env, c, pc).annotations == UserPart(c.workloads[pc.ref].annotations)
    ensures Cleared(env, c, pc).selector == ViewWorkload(env, pc.ref.kind, c.workloads[pc.ref]).selector
    ensures ViewWorkload(env, pc.ref.kind, Cleared(env, c, pc)) == ViewWorkload(env, pc.ref.kind, c.workloads[pc.ref])
            <==> !RescaledBack(c, pc)
  {
    var live := c.workloads[pc.ref];
    assert WorkloadOk(pc.ref, live);
    KindsApart(pc.ref.kind);
    assert Get(pc.read.annotations, OriginalKey(pc.ref.kind)) == Get(live.annotations, OriginalKey(pc.ref.kind));
    ClearedAnnotations(env, pc.ref, pc.read, live);
    assert UserPart(UserPart(live.annotations)) == UserPart(live.annotations);
  }

  lemma ClearingUnmarks(env: Env, ref: Ref, read: Workload, live: Workload)
    requires Marked(read)
    ensures !Marked(MergeWorkload(read, WakeForm(env, ref.kind, read), live))
  {
    var want := WakeForm(env, ref.kind, read).annotations;
    assert Hibernated !in want && Changed(read.annotations, want, Hibernated);
  }

  lemma ClearedAnnotations(env: Env, ref: Ref, read: Workload, live: Workload)
    requires WorkloadOk(ref, live) && Marked(live) && SameMarks(read.annotations, live.annotations)
    ensures MergeAnnotations(read.annotations, WakeForm(env, ref.kind, read).annotations, live.annotations)
            == UserPart(live.annotations)
  {
    var base, want := read.annotations, WakeForm(env, ref.kind, read).annotations;
    KindsApart(ref.kind);
    forall k: Key
      ensures k.User? ==> !Changed(base, want, k)
      ensures !k.User? && k in live.annotations ==> k in base && k !in want
      ensures !k.User? && k !in live.annotations ==> k !in base && k !in want
    {
    }
  }

  /** The count read was the saved one, and the workload has been rescaled since. */
  ghost predicate RescaledBack(c: Cluster, pc: Pc)
    requires pc.ClearPending? && pc.ref in c.workloads
  {
    && IsReplicaKind(pc.ref.kind)
    && pc.read.replicas == Some(SavedReplicas(c.workloads[pc.ref]))
    && Current(c.workloads[pc.ref]) != SavedReplicas(c.workloads[pc.ref])
  }

  // ---- Every step keeps the invariant ----

  lemma ListOk(env: Env, s: System, step: Step)
    requires SystemOk(s) && step.List?
    ensures SystemOk(Next(env, s, step))
  {
    forall ref | ref in s.cluster.workloads
      ensures ReadOk(s.cluster, step.owner, ref, s.cluster.workloads[ref])
    {
    }
  }

  /** Marking keeps every policy sound unless another policy is at work on the workload. */
  lemma BeginHibernateOk(env: Env, s: System, step: Step)
    requires SystemOk(s) && ValidStep(step) && step.BeginHibernate? && !LandsOnClaim(env, s, step)
    ensures SystemOk(Next(env, s, step))
  {
    var o, ref := step.owner, step.ref;
    if CanBegin(s, o, ref) {
      assert ReadOk(s.cluster, o, ref, PolicyOf(s, o).listing[ref]);
      KindsApart(ref.kind);
      var t := NextHibernate(env, s, o, ref, step.action, step.ok);
      if Lands(env, s, step) {
        if !Marked(s.cluster.workloads[ref]) {
          NobodyClaims(s, o, ref);
        }
        MarkingOk(env, s, o, ref, step.action);
      } else {
        OwnPolicyStable(s.cluster, t.cluster, ref, o, PolicyOf(s, o), PcOf(t, o));
      }
    }
  }

  lemma MarkingOk(env: Env, s: System, o: Owner, ref: Ref, action: Action)
    requires SystemOk(s) && CanBegin(s, o, ref) && !ClaimedByOther(s, o, ref)
    requires o.kind != "" && (action.maxReplicas.Some? ==> IsCount(action.maxReplicas.value))
    requires WantedMark(env, ref, PolicyOf(s, o).listing[ref], o, action).Some?
    ensures SystemOk(NextHibernate(env, s, o, ref, action, true))
  {
    var t := NextHibernate(env, s, o, ref, action, true);
    assert ReadOk(s.cluster, o, ref, PolicyOf(s, o).listing[ref]);
    MarkMerges(env, ref, PolicyOf(s, o).listing[ref], s.cluster.workloads[ref], o, action);
    ReplaceOk(env, s.cluster, ref, t.cluster.workloads[ref]);
    StepKeepsPolicies(s, t, ref, o, PcOf(t, o));
  }

  /** Nobody but its owner claims a workload; nobody at all one that is awake. */
  lemma NobodyClaims(s: System, o: Owner, ref: Ref)
    requires SystemOk(s) && ref in s.cluster.workloads
    requires Marked(s.cluster.workloads[ref]) ==> OwnerOf(s.cluster.workloads[ref]) == o
    ensures !ClaimedByOther(s, o, ref)
  {
    forall p | p in s.policies && p != o
      ensures !Claims(s.policies[p], p, ref)
    {
      if Claims(s.policies[p], p, ref) {
        ClaimsOwn(s.cluster, p, s.policies[p], ref);
      }
    }
  }

  lemma FinishHibernateOk(env: Env, s: System, step: Step)
    requires SystemOk(s) && step.FinishHibernate?
    ensures SystemOk(Next(env, s, step))
    ensures ViewOf(env, Next(env, s, step).cluster) == ViewOf(env, s.cluster)
  {
    var o := step.owner;
    var q := PolicyOf(s, o);
    if q.pc.SuspendPending? {
      var t := Next(env, s, step);
      SuspendOk(env, s.cluster, q.pc.ref, q.pc.target, step.ok);
      NobodyClaims(s, o, q.pc.ref);
      assert q.listing - {q.pc.ref} == q.listing;
      StepKeepsPolicies(s, t, q.pc.ref, o, Idle);
    }
  }

  lemma BeginWakeOk(env: Env, s: System, step: Step)
    requires SystemOk(s) && step.BeginWake?
    ensures SystemOk(Next(env, s, step))
    ensures ViewOf(env, Next(env, s, step).cluster) == ViewOf(env, s.cluster)
  {
    var o, ref := step.owner, step.ref;
    if CanBegin(s, o, ref) {
      var read := PolicyOf(s, o).listing[ref];
      assert ReadOk(s.cluster, o, ref, read);
      if Marked(read) && OwnedBy(read, o) {
        RestoringOk(env, s, o, ref, step.ok);
      } else {
        OwnPolicyStable(s.cluster, s.cluster, ref, o, PolicyOf(s, o), Idle);
      }
    }
  }

  lemma RestoringOk(env: Env, s: System, o: Owner, ref: Ref, ok: bool)
    requires SystemOk(s) && CanBegin(s, o, ref) && MarkedBy(PolicyOf(s, o).listing[ref], o)
    ensures SystemOk(NextWake(s, o, ref, ok))
    ensures ViewOf(env, NextWake(s, o, ref, ok).cluster) == ViewOf(env, s.cluster)
  {
    assert ReadOk(s.cluster, o, ref, PolicyOf(s, o).listing[ref]);
    KindsApart(ref.kind);
    if ref.kind == DAEMON_SET {
      RestoredOk(s, s.cluster, o, ref, false);
    } else {
      RestoreOk(env, s.cluster, ref, ok);
      var r := Restore(s.cluster, ref, ok);
      RestoredOk(s, r.cluster, o, ref, r.failed);
    }
  }

  lemma RestoredOk(s: System, d: Cluster, o: Owner, ref: Ref, failed: bool)
    requires SystemOk(s) && CanBegin(s, o, ref) && MarkedBy(PolicyOf(s, o).listing[ref], o)
    requires ClusterOk(d) && d.workloads == s.cluster.workloads && OnlyHpaOf(s.cluster, d, ref)
    requires failed || NoneSuspendedFor(d, ref)
    ensures var q := PolicyOf(s, o);
            var pc := if failed then Idle else ClearPending(ref, q.listing[ref]);
            SystemOk(SetPolicy(s.(cluster := d), o, Policy(pc, q.listing - {ref})))
  {
    var q := PolicyOf(s, o);
    var pc := if failed then Idle else ClearPending(ref, q.listing[ref]);
    assert ReadOk(s.cluster, o, ref, q.listing[ref]);
    NobodyClaims(s, o, ref);
    StepKeepsPolicies(s, SetPolicy(s.(cluster := d), o, Policy(pc, q.listing - {ref})), ref, o, pc);
  }

  lemma FinishWakeOk(env: Env, s: System, step: Step)
    requires SystemOk(s) && step.FinishWake?
    ensures SystemOk(Next(env, s, step))
    ensures (step.ok && PcOf(s, step.owner).ClearPending? && RescaledBack(s.cluster, PcOf(s, step.owner)))
            || ViewOf(env, Next(env, s, step).cluster) == ViewOf(env, s.cluster)
  {
    var o := step.owner;
    var q := PolicyOf(s, o);
    if q.pc.ClearPending? {
      var t := Next(env, s, step);
      assert q.listing - {q.pc.ref} == q.listing;
      if step.ok {
        ClearedIsView(env, s.cluster, o, q.pc);
        ReplaceOk(env, s.cluster, q.pc.ref, Cleared(env, s.cluster, q.pc));
        NobodyClaims(s, o, q.pc.ref);
        StepKeepsPolicies(s, t, q.pc.ref, o, Idle);
      } else {
        OwnPolicyStable(s.cluster, t.cluster, q.pc.ref, o, q, Idle);
      }
    }
  }

  /** Users and autoscalers editing what is theirs. */
  lemma EditOk(env: Env, s: System, step: Step)
    requires SystemOk(s) && ValidStep(step) && !IsController(step)
    ensures SystemOk(Next(env, s, step))
  {
    var t := Next(env, s, step);
    if t != s {
      match step {
        case Rebound(i, min, max) => ReboundOk(s, t, i, min, max);
        case Rescale(ref, _) => EditWorkloadOk(env, s, ref, t.cluster.workloads[ref]);
        case Annotate(ref, _, _) => EditWorkloadOk(env, s, ref, t.cluster.workloads[ref]);
      }
    }
  }

  lemma ReboundOk(s: System, t: System, i: nat, min: int, max: int)
    requires SystemOk(s) && i < |s.cluster.hpas| && IsCount(min) && IsCount(max)
    requires var h := s.cluster.hpas[i].(min := Some(min), max := max);
             t == s.(cluster := s.cluster.(hpas := s.cluster.hpas[i := h]))
    ensures SystemOk(t)
  {
    var c, d := s.cluster, t.cluster;
    assert HpaOk(c.hpas[i]);
    assert HpaOk(d.hpas[i]);
    assert forall j :: 0 <= j < |c.hpas| ==>
      TargetRef(d.hpas[j]) == TargetRef(c.hpas[j]) && Suspended(d.hpas[j]) == Suspended(c.hpas[j]);
    forall p | p in s.policies
      ensures PolicyOk(d, p, s.policies[p])
    {
      assert PolicyOk(c, p, s.policies[p]);
      assert forall ref :: ref in s.policies[p].listing ==> ReadOk(c, p, ref, s.policies[p].listing[ref]);
    }
  }

  lemma EditWorkloadOk(env: Env, s: System, ref: Ref, w: Workload)
    requires SystemOk(s) && ref in s.cluster.workloads
    requires SameMarks(w.annotations, s.cluster.workloads[ref].annotations)
    requires w.selector == s.cluster.workloads[ref].selector && (w.replicas.Some? ==> IsCount(w.replicas.value))
    ensures SystemOk(PutWorkload(s, ref, w))
  {
    var before := s.cluster.workloads[ref];
    assert WorkloadOk(ref, before);
    SameMarksSameMeaning(w, before);
    assert forall k :: k in w.annotations && !k.User? ==> k in before.annotations;
    assert WorkloadOk(ref, w);
    assert Marked(w) || NoneSuspendedFor(s.cluster, ref);
    ReplaceOk(env, s.cluster, ref, w);
    var d := PutWorkload(s, ref, w).cluster;
    forall p | p in s.policies
      ensures PolicyOk(d, p, s.policies[p])
    {
      EditKeepsPolicy(s.cluster, d, ref, p, s.policies[p]);
    }
  }

  lemma SameMarksSameMeaning(w: Workload, v: Workload)
    requires SameMarks(w.annotations, v.annotations)
    ensures Marked(w) == Marked(v) && OwnerOf(w) == OwnerOf(v) && SavedReplicas(w) == SavedReplicas(v)
    ensures Get(w.annotations, OriginalNodeSelector) == Get(v.annotations, OriginalNodeSelector)
  {
    assert Get(w.annotations, Hibernated) == Get(v.annotations, Hibernated);
    assert Get(w.annotations, OriginalReplicas) == Get(v.annotations, OriginalReplicas);
  }

  lemma EditKeepsPolicy(c: Cluster, d: Cluster, ref: Ref, p: Owner, q: Policy)
    requires PolicyOk(c, p, q) && ref in c.workloads && ref in d.workloads && d.hpas == c.hpas
    requires d.workloads == c.workloads[ref := d.workloads[ref]]
    requires SameMarks(d.workloads[ref].annotations, c.workloads[ref].annotations)
    requires d.workloads[ref].selector == c.workloads[ref].selector
    ensures PolicyOk(d, p, q)
  {
    SameMarksSameMeaning(d.workloads[ref], c.workloads[ref]);
    if q.pc.ClearPending? {
      assert NoneSuspendedFor(d, q.pc.ref);
    }
    forall r | r in q.listing
      ensures ReadOk(d, p, r, q.listing[r])
    {
      assert ReadOk(c, p, r, q.listing[r]);
    }
  }

  lemma AbandonOk(env: Env, s: System, step: Step)
    requires SystemOk(s) && step.Abandon?
    ensures SystemOk(Next(env, s, step))
  {
  }

  lemma NextOk(env: Env, s: System, step: Step)
    requires SystemOk(s) && ValidStep(step) && !LandsOnClaim(env, s, step)
    ensures SystemOk(Next(env, s, step))
  {
    match step {
      case List(_) => ListOk(env, s, step);
      case BeginHibernate(_, _, _, _) => BeginHibernateOk(env, s, step);
      case FinishHibernate(_, _) => FinishHibernateOk(env, s, step);
      case BeginWake(_, _, _) => BeginWakeOk(env, s, step);
      case FinishWake(_, _) => FinishWakeOk(env, s, step);
      case Abandon(_) => AbandonOk(env, s, step);
      case _ => EditOk(env, s, step);
    }
  }

  ghost predicate ValidSteps(steps: seq<Step>) {
    forall i :: 0 <= i < |steps| ==> ValidStep(steps[i])
  }

  /**
   * The invariant holds throughout every run in which no marking patch lands on a workload another policy is at work
   * on.
   */
  lemma {:induction false} RunOk(env: Env, s: System, steps: seq<Step>)
    requires SystemOk(s) && ValidSteps(steps) && NoClaimTaken(env, s, steps)
    ensures SystemOk(Run(env, s, steps))
  {
    if steps != [] {
      RunOk(env, s, steps[..|steps| - 1]);
      NextOk(env, Run(env, s, steps[..|steps| - 1]), steps[|steps| - 1]);
    }
  }
}
