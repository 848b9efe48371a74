/** Suspending and restoring the autoscaler of a workload (internal/controller/helpers.go). */
module Autoscalers {
  import opened Options
  import opened Text
  import opened Names
  import opened Cluster

  predicate Matches(h: Hpa, ref: Ref) {
    h.namespace == ref.namespace && h.target.kind == ref.kind && h.target.name == ref.name
  }

  predicate MatchesSaved(h: Hpa, ref: Ref) {
    && h.namespace == ref.namespace
    && Get(h.annotations, HpaTargetKind) == ref.kind
    && Get(h.annotations, HpaTargetName) == ref.name
  }

  /** The first autoscaler from index i on that satisfies the test. */
  function FindFrom(hpas: seq<Hpa>, test: Hpa -> bool, i: nat): (r: Option<nat>)
    requires i <= |hpas|
    ensures r.None? ==> forall j :: i <= j < |hpas| ==> !test(hpas[j])
    ensures r.Some? ==> i <= r.value < |hpas| && test(hpas[r.value])
    ensures r.Some? ==> forall j :: i <= j < r.value ==> !test(hpas[j])
    decreases |hpas| - i
  {
    if i == |hpas| then None
    else if test(hpas[i]) then Some(i)
    else FindFrom(hpas, test, i + 1)
  }

  function FindHpa(hpas: seq<Hpa>, ref: Ref): Option<nat> {
    FindFrom(hpas, h => Matches(h, ref), 0)
  }

  function FindSuspendedHpa(hpas: seq<Hpa>, ref: Ref): Option<nat> {
    FindFrom(hpas, h => MatchesSaved(h, ref), 0)
  }

  /** restoreHPA looks at current targets first and at saved targets only when that finds nothing. */
  function FindForRestore(hpas: seq<Hpa>, ref: Ref): Option<nat> {
    if FindHpa(hpas, ref).Some? then FindHpa(hpas, ref) else FindSuspendedHpa(hpas, ref)
  }

  predicate Suspended(h: Hpa) {
    Get(h.annotations, HpaMin) != ""
  }

  predicate Detached(h: Hpa) {
    Get(h.annotations, HpaTargetName) != ""
  }

  function SuspendedForm(env: Env, h: Hpa, target: int): Hpa {
    var bounds := h.annotations[HpaMin := Itoa(h.min.GetOr(1))][HpaMax := Itoa(h.max)];
    if target == 0 then
      h.(annotations := bounds[HpaTargetApiVersion := h.target.apiVersion]
                              [HpaTargetKind := h.target.kind][HpaTargetName := h.target.name],
         target := h.target.(name := DetachedTargetName(env.hash, h.target.kind, h.target.name)))
    else
      h.(annotations := bounds, min := Some(target), max := target)
  }

  const HPA_KEYS := {HpaMin, HpaMax, HpaTargetApiVersion, HpaTargetKind, HpaTargetName}

  function RestoredForm(h: Hpa): Hpa {
    h.(min := Some(ToInt32(ParseOriginalReplicas(Get(h.annotations, HpaMin)))),
       max := ToInt32(ParseOriginalReplicas(Get(h.annotations, HpaMax))),
       target := if Detached(h) then SavedTarget(h) else h.target,
       annotations := h.annotations - HPA_KEYS)
  }

  function SavedTarget(h: Hpa): Target {
    Target(Get(h.annotations, HpaTargetApiVersion), Get(h.annotations, HpaTargetKind),
      Get(h.annotations, HpaTargetName))
  }

  /** The cluster after a call and whether the call reported an error. */
  datatype Outcome = Outcome(cluster: Cluster, failed: bool)

  /** suspendHPA: ok says whether the one patch it may issue succeeds. */
  function Suspend(env: Env, c: Cluster, ref: Ref, target: int, ok: bool): Outcome {
    match FindHpa(c.hpas, ref)
    case None => Outcome(c, false)
    case Some(i) =>
      if Suspended(c.hpas[i]) then Outcome(c, false)
      else if !ok then Outcome(c, true)
      else Outcome(c.(hpas := c.hpas[i := SuspendedForm(env, c.hpas[i], target)]), false)
  }

  /** restoreHPA: likewise. */
  function Restore(c: Cluster, ref: Ref, ok: bool): Outcome {
    match FindForRestore(c.hpas, ref)
    case None => Outcome(c, false)
    case Some(i) =>
      if !Suspended(c.hpas[i]) then Outcome(c, false)
      else if !ok then Outcome(c, true)
      else Outcome(c.(hpas := c.hpas[i := RestoredForm(c.hpas[i])]), false)
  }

  // ---- What the saved values mean ----

  /** The autoscaler as its user configured it, whether or not it is suspended now. */
  datatype HpaView = HpaView(target: Target, min: int, max: int, user: Annotations)

  ghost function ViewHpa(h: Hpa): HpaView {
    if Suspended(h) then
      HpaView(if Detached(h) then SavedTarget(h) else h.target,
              ParseOriginalReplicas(Get(h.annotations, HpaMin)),
              ParseOriginalReplicas(Get(h.annotations, HpaMax)),
              UserPart(h.annotations))
    else HpaView(h.target, h.min.GetOr(1), h.max, UserPart(h.annotations))
  }

  /** The workload this autoscaler is meant to scale. */
  ghost function TargetRef(h: Hpa): Ref {
    Ref(h.namespace, ViewHpa(h).target.kind, ViewHpa(h).target.name)
  }

  predicate IsParkedName(name: string) {
    |name| >= |DETACHED_PREFIX| && name[..|DETACHED_PREFIX|] == DETACHED_PREFIX
  }

  ghost predicate HpaOk(h: Hpa) {
    && (h.min.Some? ==> IsCount(h.min.value))
    && IsCount(h.max)
    && (!Suspended(h) ==> NoControllerKeys(h.annotations))
    && (Suspended(h) ==>
      && IsCount(ParseOriginalReplicas(Get(h.annotations, HpaMin)))
      && IsCount(ParseOriginalReplicas(Get(h.annotations, HpaMax)))
      && (Detached(h) ==> IsParkedName(h.target.name))
      && (!Detached(h) ==> HpaTargetName !in h.annotations && HpaTargetKind !in h.annotations)
      && forall k :: k in h.annotations ==> k.User? || k in HPA_KEYS)
  }

  lemma DetachedNameIsParked(hash: string -> string, kind: string, name: string)
    ensures IsParkedName(DetachedTargetName(hash, kind, name))
  {
    assert DetachedTargetName(hash, kind, name) == DETACHED_PREFIX + ("-" + hash(kind + "/" + name));
  }

  /** Two workloads of one namespace are parked on one name exactly when the hashes of kind and name collide. */
  lemma DetachedNamesCollide(hash: string -> string, kind: string, name: string, kind': string, name': string)
    requires IsShortHash(hash)
    ensures DetachedTargetName(hash, kind, name) == DetachedTargetName(hash, kind', name')
            <==> hash(kind + "/" + name) == hash(kind' + "/" + name')
    ensures DetachedTargetName(hash, kind, name) == "kube-greencosts-hibernated-" + hash(kind + "/" + name)
  {
    var p, q := DetachedTargetName(hash, kind, name), DetachedTargetName(hash, kind', name');
    var n := |DETACHED_PREFIX| + 1;
    assert DETACHED_PREFIX + "-" == "kube-greencosts-hibernated-";
    assert p[n..] == hash(kind + "/" + name) && q[n..] == hash(kind' + "/" + name');
  }

  /** Suspending saves everything it overwrites: the configured view does not change. */
  lemma SuspendedFormKeepsView(env: Env, h: Hpa, target: int)
    requires HpaOk(h) && !Suspended(h) && h.target.name != "" && IsCount(target)
    ensures HpaOk(SuspendedForm(env, h, target)) && Suspended(SuspendedForm(env, h, target))
    ensures ViewHpa(SuspendedForm(env, h, target)) == ViewHpa(h)
    ensures TargetRef(SuspendedForm(env, h, target)) == TargetRef(h)
  {
    CountRoundTrip(h.min.GetOr(1));
    CountRoundTrip(h.max);
    DetachedNameIsParked(env.hash, h.target.kind, h.target.name);
    assert UserPart(SuspendedForm(env, h, target).annotations) == UserPart(h.annotations);
  }

  /** An autoscaler that is awake and configured exactly as the view says, an unset minimum written out as 1. */
  ghost predicate IsAsConfigured(h: Hpa, v: HpaView) {
    h.target == v.target && h.min == Some(v.min) && h.max == v.max && h.annotations == v.user
  }

  /** Restoring brings back the configured view and leaves no annotation of the controllers behind. */
  lemma RestoredFormIsView(h: Hpa)
    requires HpaOk(h) && Suspended(h)
    ensures IsAsConfigured(RestoredForm(h), ViewHpa(h))
    ensures HpaOk(RestoredForm(h)) && !Suspended(RestoredForm(h))
    ensures ViewHpa(RestoredForm(h)) == ViewHpa(h) && TargetRef(RestoredForm(h)) == TargetRef(h)
  {
    assert RestoredForm(h).annotations == UserPart(h.annotations);
    assert UserPart(RestoredForm(h).annotations) == UserPart(h.annotations);
  }
}
