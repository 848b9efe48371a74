/** The part of a Kubernetes cluster the hibernation controllers read and patch. */
module Cluster {
  import opened Options
  import opened Text
  import opened Names

  const DEPLOYMENT := "Deployment"
  const STATEFUL_SET := "StatefulSet"
  const DAEMON_SET := "DaemonSet"
  const REPLICA_SET := "ReplicaSet"
  const TRUE_VALUE := "true"

  /** Annotation keys: the controllers' own ones by name, and every other key a user may set. */
  datatype Key =
    | Hibernated | ByKind | ByName | ByNamespace
    | OriginalReplicas | OriginalNodeSelector
    | HpaMin | HpaMax | HpaTargetApiVersion | HpaTargetKind | HpaTargetName
    | User(key: string)

  type Annotations = map<Key, string>
  type Selector = Option<map<string, string>>

  /** Indexing a Go map: an absent key reads as the empty string. */
  function Get(a: Annotations, k: Key): string {
    if k in a then a[k] else ""
  }

  ghost predicate NoControllerKeys(a: Annotations) {
    forall k :: k in a ==> k.User?
  }

  ghost function UserPart(a: Annotations): Annotations {
    map k | k in a && k.User? :: a[k]
  }

  datatype Ref = Ref(namespace: string, kind: string, name: string)

  datatype Workload = Workload(replicas: Option<int>, selector: Selector, annotations: Annotations,
                               deploymentOwned: bool)

  datatype Target = Target(apiVersion: string, kind: string, name: string)

  datatype Hpa = Hpa(namespace: string, target: Target, min: Option<int>, max: int, annotations: Annotations)

  datatype Cluster = Cluster(workloads: map<Ref, Workload>, hpas: seq<Hpa>)

  datatype Owner = Owner(kind: string, namespace: string, name: string)

  datatype Action = Action(sleepDaemonSet: bool, maxReplicas: Option<int>)

  /** What the controllers call but do not define: the hash, and JSON for node selectors. */
  datatype Env = Env(hash: string -> string, encode: Selector -> string, decode: string -> Option<Selector>)

  /** JSON text of a selector is never empty and decodes to the selector it was made from. */
  ghost predicate ValidEnv(env: Env) {
    && IsShortHash(env.hash)
    && forall s :: env.encode(s) != "" && env.decode(env.encode(s)) == Some(s)
  }

  predicate IsReplicaKind(kind: string) {
    kind == DEPLOYMENT || kind == STATEFUL_SET || kind == REPLICA_SET
  }

  /** A stored count: empty, unreadable and negative text reads as one replica. */
  function ParseOriginalReplicas(s: string): (n: int)
    ensures 0 <= n <= MAX_INT64
    ensures s == "" ==> n == 1
  {
    match Atoi(s)
    case None => 1
    case Some(v) => if v < 0 then 1 else v
  }

  /** Digits, with a plus sign or without, read as the number they spell while it is an int64; all else reads as one. */
  lemma SavedCountText(s: string)
    ensures s != "" && AllDigits(s) ==>
              ParseOriginalReplicas(s) == ParseOriginalReplicas("+" + s)
                == (if Value(s) <= MAX_INT64 then Value(s) else 1)
    ensures s != "" && AllDigits(s) ==> ParseOriginalReplicas("-" + s) == if Value(s) == 0 then 0 else 1
    ensures s == "" || (s[0] !in {'+', '-'} && !AllDigits(s))
            || (s[0] in {'+', '-'} && (|s| == 1 || !AllDigits(s[1..])))
            ==> ParseOriginalReplicas(s) == 1
  {
    if s != "" && AllDigits(s) {
      assert IsDigit(s[0]);
      assert ("-" + s)[1..] == s && ("+" + s)[1..] == s;
    }
  }

  /** Go's int32(x) of a 64-bit integer keeps the low 32 bits. */
  function ToInt32(x: int): (r: int)
    ensures -MAX_INT32 - 1 <= r <= MAX_INT32
    ensures 0 <= x <= MAX_INT32 ==> r == x
  {
    var low := x % 0x1_0000_0000;
    if low > MAX_INT32 then low - 0x1_0000_0000 else low
  }

  /** The one int32 that is congruent to x. */
  lemma ToInt32IsCongruent(x: int, r: int)
    requires -0x8000_0000 <= r < 0x8000_0000
    ensures r == ToInt32(x) <==> (x - r) % 0x1_0000_0000 == 0
  {
    var q, low := x / 0x1_0000_0000, x % 0x1_0000_0000;
    assert x - ToInt32(x) == 0x1_0000_0000 * (if low > MAX_INT32 then q + 1 else q);
    if (x - r) % 0x1_0000_0000 == 0 {
      var k := (x - r) / 0x1_0000_0000;
      assert x - r == 0x1_0000_0000 * k;
    }
  }

  predicate IsCount(n: int) {
    0 <= n <= MAX_INT32
  }

  lemma CountRoundTrip(n: int)
    requires IsCount(n)
    ensures ParseOriginalReplicas(Itoa(n)) == n && Itoa(n) != ""
  {
    AtoiItoa(n);
  }

  predicate Marked(w: Workload) {
    Get(w.annotations, Hibernated) == TRUE_VALUE
  }

  function OwnerOf(w: Workload): Owner {
    Owner(Get(w.annotations, ByKind), Get(w.annotations, ByNamespace), Get(w.annotations, ByName))
  }

  /** A marker without any owner field predates ownership and belongs to everyone. */
  predicate OwnedBy(w: Workload, o: Owner) {
    OwnerOf(w) == Owner("", "", "") || OwnerOf(w) == o
  }

  /**
   * A marker that names its owner belongs to that one alone. Two owners can both claim a workload only through a marker
   * that names none, and then everyone can.
   */
  lemma MarkerBelongsTo(w: Workload, o: Owner, p: Owner)
    requires o != p
    ensures OwnedBy(w, o) && OwnedBy(w, p)
            <==> forall k :: k in {ByKind, ByName, ByNamespace} && k in w.annotations ==> w.annotations[k] == ""
    ensures {ByKind, ByName, ByNamespace} <= w.annotations.Keys && w.annotations[ByKind] != "" ==>
              (OwnedBy(w, o) <==> w.annotations[ByKind] == o.kind && w.annotations[ByName] == o.name
                                  && w.annotations[ByNamespace] == o.namespace)
  {
  }

  function MarkHibernated(a: Annotations, o: Owner): Annotations {
    a[Hibernated := TRUE_VALUE][ByKind := o.kind][ByName := o.name][ByNamespace := o.namespace]
  }

  function ClearHibernated(a: Annotations): Annotations {
    a - {Hibernated, ByKind, ByName, ByNamespace}
  }

  /**
   * A JSON merge patch computed from base to want (section 2 of RFC 7396), applied to what is live:
   * fields that differ between base and want take the wanted value, all others stay as they are live.
   */
  function MergeAnnotations(base: Annotations, want: Annotations, live: Annotations): Annotations {
    map k | k in live.Keys + want.Keys && (if Changed(base, want, k) then k in want else k in live)
      :: if Changed(base, want, k) then want[k] else live[k]
  }

  predicate Changed(base: Annotations, want: Annotations, k: Key) {
    (k in base) != (k in want) || (k in base && base[k] != want[k])
  }

  function MergeWorkload(base: Workload, want: Workload, live: Workload): Workload {
    Workload(
      if want.replicas != base.replicas then want.replicas else live.replicas,
      if want.selector != base.selector then want.selector else live.selector,
      MergeAnnotations(base.annotations, want.annotations, live.annotations),
      live.deploymentOwned)
  }

  /** A patch against an unchanged object installs exactly the wanted object. */
  lemma MergeFresh(base: Workload, want: Workload)
    requires want.deploymentOwned == base.deploymentOwned
    ensures MergeWorkload(base, want, base) == want
  {
    assert MergeAnnotations(base.annotations, want.annotations, base.annotations) == want.annotations;
  }
}
