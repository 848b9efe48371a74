/**
 * Which cluster policy governs which workload: a workload's own annotation wins over its namespace's, and the kind
 * filters of the policy apply on top (collectWorkloads in internal/controller/clusterhibernatepolicy_controller.go).
 */
module Governance {
  import opened Cluster

  /** policy is the value of the opt-in annotation, empty when absent. */
  datatype Object = Object(namespace: string, name: string, policy: string, deploymentOwned: bool)

  datatype Namespace = Namespace(name: string, policy: string)

  datatype Listing = Listing(namespaces: seq<Namespace>, deployments: seq<Object>, statefulSets: seq<Object>,
                             daemonSets: seq<Object>, replicaSets: seq<Object>)

  datatype Filters = Filters(included: seq<string>, excluded: seq<string>)

  const KINDS := [DEPLOYMENT, STATEFUL_SET, DAEMON_SET, REPLICA_SET]

  function Items(l: Listing, kind: string): seq<Object> {
    if kind == DEPLOYMENT then l.deployments
    else if kind == STATEFUL_SET then l.statefulSets
    else if kind == DAEMON_SET then l.daemonSets
    else if kind == REPLICA_SET then l.replicaSets
    else []
  }

  predicate KindAllowed(kind: string, f: Filters) {
    if f.included != [] then kind in f.included
    else if f.excluded != [] then kind !in f.excluded
    else true
  }

  function RefOf(kind: string, o: Object): Ref {
    Ref(o.namespace, kind, o.name)
  }

  /** What workloads are deduplicated by. */
  function RefString(r: Ref): string {
    r.namespace + ("/" + (r.kind + ("/" + r.name)))
  }

  predicate NoSlash(s: string) {
    forall i :: 0 <= i < |s| ==> s[i] != '/'
  }

  /** What the API server guarantees of names. */
  ghost predicate ListingOk(l: Listing) {
    && (forall i, j :: 0 <= i < j < |l.namespaces| ==> l.namespaces[i].name != l.namespaces[j].name)
    && (forall kind, i :: 0 <= i < |Items(l, kind)| ==> NoSlash(Items(l, kind)[i].namespace))
    && (forall kind, i, j :: 0 <= i < j < |Items(l, kind)| ==>
         RefOf(kind, Items(l, kind)[i]) != RefOf(kind, Items(l, kind)[j]))
  }

  // ---- The rule, stated independently of how workloads are collected ----

  ghost predicate NamespaceOptsIn(l: Listing, namespace: string, policy: string) {
    Namespace(namespace, policy) in l.namespaces
  }

  /** The policy that governs the object: its own annotation if not empty, else its namespace's. */
  ghost predicate EffectivePolicy(l: Listing, o: Object, policy: string) {
    if o.policy != "" then o.policy == policy else NamespaceOptsIn(l, o.namespace, policy)
  }

  ghost predicate Eligible(kind: string, o: Object) {
    !(kind == REPLICA_SET && o.deploymentOwned)
  }

  ghost predicate Governed(l: Listing, f: Filters, policy: string, r: Ref) {
    && r.kind in KINDS && KindAllowed(r.kind, f)
    && exists o ::
         o in Items(l, r.kind) && RefOf(r.kind, o) == r && Eligible(r.kind, o) && EffectivePolicy(l, o, policy)
  }

  /** No workload is governed by two cluster policies, whatever their filters. */
  lemma OnePolicyGoverns(l: Listing, f: Filters, g: Filters, p: string, q: string, r: Ref)
    requires ListingOk(l) && Governed(l, f, p, r) && Governed(l, g, q, r)
    ensures p == q
  {
    var items := Items(l, r.kind);
    var i :| 0 <= i < |items| && RefOf(r.kind, items[i]) == r && EffectivePolicy(l, items[i], p);
    var j :| 0 <= j < |items| && RefOf(r.kind, items[j]) == r && EffectivePolicy(l, items[j], q);
    assert i == j;
  }

  // ---- Deduplication ----

  lemma SplitAtSlash(a: string, x: string, b: string, y: string)
    requires NoSlash(a) && NoSlash(b) && a + ("/" + x) == b + ("/" + y)
    ensures a == b && x == y
  {
    var s := a + ("/" + x);
    assert s[|a|] == '/' && s[|b|] == '/';
    if |a| != |b| {
      assert false;
    }
    assert a == s[..|a|] && x == s[|a| + 1..];
    assert b == s[..|b|] && y == s[|b| + 1..];
  }

  lemma KindsHaveNoSlash(kind: string)
    requires kind in KINDS
    ensures NoSlash(kind)
  {
  }

  lemma RefStringInjective(r: Ref, q: Ref)
    requires NoSlash(r.namespace) && NoSlash(q.namespace) && r.kind in KINDS && q.kind in KINDS
    requires RefString(r) == RefString(q)
    ensures r == q
  {
    KindsHaveNoSlash(r.kind);
    KindsHaveNoSlash(q.kind);
    SplitAtSlash(r.namespace, r.kind + ("/" + r.name), q.namespace, q.kind + ("/" + q.name));
    SplitAtSlash(r.kind, r.name, q.kind, q.name);
  }

  ghost predicate NoRepeats(refs: seq<Ref>) {
    forall i, j :: 0 <= i < j < |refs| ==> refs[i] != refs[j]
  }

  predicate Nameable(r: Ref) {
    NoSlash(r.namespace) && r.kind in KINDS
  }

  /** The refs collected so far and the strings they are remembered by. */
  ghost predicate Tracks(refs: seq<Ref>, seen: set<string>) {
    && NoRepeats(refs)
    && (forall r :: r in refs ==> Nameable(r))
    && seen == set r | r in refs :: RefString(r)
  }

  method Add(refs: seq<Ref>, seen: set<string>, ref: Ref, f: Filters) returns (refs': seq<Ref>, seen': set<string>)
    requires Tracks(refs, seen) && Nameable(ref)
    ensures Tracks(refs', seen')
    ensures forall r :: r in refs' <==> r in refs || (r == ref && KindAllowed(ref.kind, f))
  {
    refs', seen' := refs, seen;
    if !KindAllowed(ref.kind, f) {
      return;
    }
    if RefString(ref) in seen {
      var q :| q in refs && RefString(q) == RefString(ref);
      RefStringInjective(q, ref);
    } else {
      refs', seen' := refs + [ref], seen + {RefString(ref)};
      assert forall r :: r in refs' <==> r in refs || r == ref;
    }
  }

  // ---- Collecting ----

  /** The objects of one kind in one namespace that do not point at another policy. */
  method NamespaceRefsOfKind(l: Listing, kind: string, namespace: string, policy: string) returns (refs: seq<Ref>)
    ensures forall r :: r in refs <==> InNamespace(l, kind, namespace, policy, r)
  {
    refs := [];
    var items := Items(l, kind);
    for i := 0 to |items|
      invariant forall r :: r in refs <==>
                  exists j :: 0 <= j < i && r == RefOf(kind, items[j]) && Undisputed(kind, items[j], namespace, policy)
    {
      var o := items[i];
      if o.namespace != namespace || (kind == REPLICA_SET && o.deploymentOwned)
        || (o.policy != "" && o.policy != policy) {
        continue;
      }
      refs := refs + [RefOf(kind, o)];
    }
  }

  ghost predicate Undisputed(kind: string, o: Object, namespace: string, policy: string) {
    o.namespace == namespace && Eligible(kind, o) && (o.policy == "" || o.policy == policy)
  }

  ghost predicate InNamespace(l: Listing, kind: string, namespace: string, policy: string, r: Ref) {
    var items := Items(l, kind);
    exists j :: 0 <= j < |items| && r == RefOf(kind, items[j]) && Undisputed(kind, items[j], namespace, policy)
  }

  method AllWorkloadsInNamespace(l: Listing, namespace: string, policy: string) returns (refs: seq<Ref>)
    ensures forall r :: r in refs <==> r.kind in KINDS && InNamespace(l, r.kind, namespace, policy, r)
  {
    refs := [];
    for k := 0 to |KINDS|
      invariant forall r :: r in refs <==> r.kind in KINDS[..k] && InNamespace(l, r.kind, namespace, policy, r)
    {
      var more := NamespaceRefsOfKind(l, KINDS[k], namespace, policy);
      refs := refs + more;
      assert forall r :: r in more <==> r.kind == KINDS[k] && InNamespace(l, r.kind, namespace, policy, r);
      assert KINDS[..k + 1] == KINDS[..k] + [KINDS[k]];
    }
    assert KINDS[..|KINDS|] == KINDS;
  }

  /** Everything collected so far is governed by the policy. */
  ghost predicate Sound(l: Listing, f: Filters, policy: string, refs: seq<Ref>) {
    forall r :: r in refs ==> Governed(l, f, policy, r)
  }

  lemma NamespaceRefGoverned(l: Listing, f: Filters, namespace: string, policy: string, r: Ref)
    requires ListingOk(l) && NamespaceOptsIn(l, namespace, policy)
    requires r.kind in KINDS && InNamespace(l, r.kind, namespace, policy, r)
    ensures Nameable(r) && (KindAllowed(r.kind, f) ==> Governed(l, f, policy, r))
  {
    var items := Items(l, r.kind);
    var j :| 0 <= j < |items| && r == RefOf(r.kind, items[j]) && Undisputed(r.kind, items[j], namespace, policy);
    assert items[j] in items && EffectivePolicy(l, items[j], policy);
  }

  /** Whatever the given namespaces bring in, if they opted in, has been collected. */
  ghost predicate Covers(l: Listing, f: Filters, policy: string, namespaces: seq<Namespace>, refs: seq<Ref>) {
    forall n: string, r: Ref :: Namespace(n, policy) in namespaces && Candidate(l, f, n, policy, r) ==> r in refs
  }

  ghost predicate Candidate(l: Listing, f: Filters, namespace: string, policy: string, r: Ref) {
    r.kind in KINDS && KindAllowed(r.kind, f) && InNamespace(l, r.kind, namespace, policy, r)
  }

  /** First the namespaces that opted in ... */
  method CollectFromNamespaces(l: Listing, policy: string, f: Filters) returns (refs: seq<Ref>, seen: set<string>)
    requires ListingOk(l)
    ensures Tracks(refs, seen) && Sound(l, f, policy, refs)
    ensures Covers(l, f, policy, l.namespaces, refs)
  {
    refs, seen := [], {};
    for i := 0 to |l.namespaces|
      invariant Tracks(refs, seen) && Sound(l, f, policy, refs)
      invariant Covers(l, f, policy, l.namespaces[..i], refs)
    {
      var ns := l.namespaces[i];
      assert l.namespaces[..i + 1] == l.namespaces[..i] + [ns];
      if ns.policy != policy {
        continue;
      }
      assert NamespaceOptsIn(l, ns.name, policy);
      var nsRefs := AllWorkloadsInNamespace(l, ns.name, policy);
      for j := 0 to |nsRefs|
        invariant Tracks(refs, seen) && Sound(l, f, policy, refs)
        invariant Covers(l, f, policy, l.namespaces[..i], refs)
        invariant forall k :: 0 <= k < j && KindAllowed(nsRefs[k].kind, f) ==> nsRefs[k] in refs
      {
        NamespaceRefGoverned(l, f, ns.name, policy, nsRefs[j]);
        refs, seen := Add(refs, seen, nsRefs[j], f);
      }
    }
    assert l.namespaces[..|l.namespaces|] == l.namespaces;
  }

  ghost predicate CoversAnnotated(l: Listing, f: Filters, policy: string, kind: string, refs: seq<Ref>) {
    KindAllowed(kind, f) ==>
      forall o :: o in Items(l, kind) && Eligible(kind, o) && o.policy == policy ==> RefOf(kind, o) in refs
  }

  /** ... then, kind by kind, the objects that carry the annotation themselves. */
  method CollectAnnotated(l: Listing, kind: string, policy: string, f: Filters, refs: seq<Ref>, seen: set<string>)
    returns (refs': seq<Ref>, seen': set<string>)
    requires ListingOk(l) && policy != "" && kind in KINDS
    requires Tracks(refs, seen) && Sound(l, f, policy, refs)
    ensures Tracks(refs', seen') && Sound(l, f, policy, refs')
    ensures forall r :: r in refs ==> r in refs'
    ensures CoversAnnotated(l, f, policy, kind, refs')
  {
    refs', seen' := refs, seen;
    var items := Items(l, kind);
    for i := 0 to |items|
      invariant Tracks(refs', seen') && Sound(l, f, policy, refs')
      invariant forall r :: r in refs ==> r in refs'
      invariant KindAllowed(kind, f) ==>
                  forall j :: 0 <= j < i && Eligible(kind, items[j]) && items[j].policy == policy ==>
                      RefOf(kind, items[j]) in refs'
    {
      var o := items[i];
      if kind == REPLICA_SET && o.deploymentOwned {
        continue;
      }
      if o.policy == policy {
        assert o in items && EffectivePolicy(l, o, policy);
        refs', seen' := Add(refs', seen', RefOf(kind, o), f);
      }
    }
  }

  /** A listed object of the given kind; ReplicaSets that belong to a Deployment do not count. */
  ghost predicate Listed(l: Listing, kind: string, o: Object) {
    || (kind == "Deployment" && o in l.deployments)
    || (kind == "StatefulSet" && o in l.statefulSets)
    || (kind == "DaemonSet" && o in l.daemonSets)
    || (kind == "ReplicaSet" && o in l.replicaSets && !o.deploymentOwned)
  }

  /** The rule over the listing's own fields: it carries the annotation, or carries none and its namespace does. */
  ghost predicate OptedIn(l: Listing, policy: string, r: Ref) {
    exists o :: Listed(l, r.kind, o) && o.namespace == r.namespace && o.name == r.name
                && (o.policy == policy || (o.policy == "" && Namespace(o.namespace, policy) in l.namespaces))
  }

  lemma GovernedIff(l: Listing, f: Filters, policy: string, r: Ref)
    requires policy != ""
    ensures Governed(l, f, policy, r)
            <==> OptedIn(l, policy, r) && (if f.included != [] then r.kind in f.included else r.kind !in f.excluded)
  {
    assert |DEPLOYMENT| == 10 && |STATEFUL_SET| == 11 && |DAEMON_SET| == 9;
    assert KINDS[0] == "Deployment" && KINDS[1] == "StatefulSet" && KINDS[2] == "DaemonSet" && KINDS[3] == "ReplicaSet";
    if Governed(l, f, policy, r) {
      var o :| o in Items(l, r.kind) && RefOf(r.kind, o) == r && Eligible(r.kind, o) && EffectivePolicy(l, o, policy);
      assert Listed(l, r.kind, o);
    }
    if OptedIn(l, policy, r) {
      var o :| Listed(l, r.kind, o) && o.namespace == r.namespace && o.name == r.name
               && (o.policy == policy || (o.policy == "" && Namespace(o.namespace, policy) in l.namespaces));
      assert o in Items(l, r.kind) && RefOf(r.kind, o) == r && EffectivePolicy(l, o, policy);
    }
  }

  /** Exactly the governed workloads, each once: the ones that opted in, of the kinds the filters let through. */
  method CollectWorkloads(l: Listing, policy: string, f: Filters) returns (refs: seq<Ref>)
    requires ListingOk(l) && policy != ""
    ensures NoRepeats(refs)
    ensures forall r :: r in refs <==> Governed(l, f, policy, r)
    ensures forall r :: r in refs
                        <==> OptedIn(l, policy, r)
                             && (if f.included != [] then r.kind in f.included else r.kind !in f.excluded)
  {
    var seen: set<string>;
    refs, seen := CollectFromNamespaces(l, policy, f);
    ghost var fromNamespaces := refs;
    for k := 0 to |KINDS|
      invariant Tracks(refs, seen) && Sound(l, f, policy, refs)
      invariant forall r :: r in fromNamespaces ==> r in refs
      invariant forall i :: 0 <= i < k ==> CoversAnnotated(l, f, policy, KINDS[i], refs)
    {
      refs, seen := CollectAnnotated(l, KINDS[k], policy, f, refs, seen);
    }
    forall r | Governed(l, f, policy, r)
      ensures r in refs
    {
      var items := Items(l, r.kind);
      var o :| o in items && RefOf(r.kind, o) == r && Eligible(r.kind, o) && EffectivePolicy(l, o, policy);
      if o.policy == "" {
        var j :| 0 <= j < |items| && items[j] == o;
        assert Undisputed(r.kind, items[j], o.namespace, policy);
        assert Candidate(l, f, o.namespace, policy, r);
      } else {
        var i :| 0 <= i < |KINDS| && KINDS[i] == r.kind;
        assert CoversAnnotated(l, f, policy, KINDS[i], refs);
      }
    }
    forall r
      ensures Governed(l, f, policy, r)
              <==> OptedIn(l, policy, r) && (if f.included != [] then r.kind in f.included else r.kind !in f.excluded)
    {
      GovernedIff(l, f, policy, r);
    }
  }
}
