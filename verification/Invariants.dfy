/** What every reachable state satisfies, and the proof that every step keeps it. */
module Invariants {
  import opened Wrappers
  import opened ResourceRefs
  import opened Cluster
  import opened Prepare
  import opened Machine
  import U = Unstructured

  // ----- The cluster -----

  ghost predicate Named(c: Cluster) {
    && (forall n | n in c.namespaces :: c.namespaces[n].meta.name == n)
    && (forall k | k in c.classes :: c.classes[k].name == k)
    && (forall n | n in c.bindings :: c.bindings[n].namespaceName == n)
  }

  ghost predicate UidsOk(c: Cluster) {
    && (forall n, m | n in c.namespaces && m in c.namespaces ::
          c.namespaces[n].meta.uid == c.namespaces[m].meta.uid ==> n == m)
    && (forall n | n in c.namespaces :: c.namespaces[n].meta.uid in c.uids)
    && (forall id | id in c.store.applied :: c.store.applied[id] in c.uids)
  }

  /** The object was last applied for the namespace. */
  ghost predicate Owns(c: Cluster, n: string, id: ObjectId) {
    n in c.namespaces && id in c.store.applied && c.store.applied[id] == c.namespaces[n].meta.uid
  }

  ghost predicate StoreOk(c: Cluster) {
    && c.store.applied.Keys <= c.store.objects.Keys
    && c.store.pending <= c.store.applied.Keys
  }

  /** Objects are applied in the namespace they are applied for, or cluster-wide. */
  ghost predicate OwnedScoped(c: Cluster) {
    forall n, id | Owns(c, n, id) :: id.namespace == "" || id.namespace == n
  }

  ghost predicate GoodInventory(n: string, refs: seq<ResourceRef>) {
    && Canonical(refs)
    && AllRecordable(refs)
    && forall r | r in refs :: r.namespace == "" || r.namespace == n
  }

  ghost predicate InventoriesGood(c: Cluster) {
    forall n | n in c.bindings :: GoodInventory(n, c.bindings[n].status.inventory)
  }

  // ----- Coverage -----

  /** The objects the inventory answers for: of a namespace being deleted, the garbage collector takes the
      rest. */
  predicate Relevant(ns: Namespace, id: ObjectId) {
    !ns.deleting || id.namespace == ""
  }

  ghost predicate ClaimedFor(s: Config, n: string, id: ObjectId) {
    !s.phase.Idle? && s.phase.ns.meta.name == n && id in Claimed(s.phase)
  }

  /** Every object applied for a namespace is recorded, or claimed by the pass in progress, or was lost by
      a pass that ended early. */
  ghost predicate Covered(s: Config) {
    forall n, id | Owns(s.c, n, id) && Relevant(s.c.namespaces[n], id) ::
      id in Recorded(s.c, n) || id in s.c.store.pending || ClaimedFor(s, n, id)
  }

  /** A namespace with an object to clean up carries the finalizer. */
  ghost predicate GuardedByFinalizer(c: Cluster) {
    forall n, id | Owns(c, n, id) && Relevant(c.namespaces[n], id) ::
      id in c.store.pending || c.namespaces[n].HasFinalizer()
  }

  /** Nothing outlives its namespace but what was lost. */
  ghost predicate NoOrphans(c: Cluster) {
    forall id | id in c.store.applied :: id in c.store.pending || exists n :: Owns(c, n, id)
  }

  // ----- The pass in progress -----

  ghost predicate Held(c: Cluster, ns: Namespace) {
    ns.meta.name in c.namespaces && c.namespaces[ns.meta.name] == ns
  }

  predicate Labelled(ns: Namespace) {
    !ns.deleting && ns.ClassName() != ""
  }

  predicate FoundOk(ns: Namespace, found: Option<NamespaceClass>) {
    found.Some? ==> found.value.name == ns.ClassName()
  }

  ghost predicate BindingHeld(c: Cluster, ns: Namespace, b: Binding) {
    ns.meta.name in c.bindings && c.bindings[ns.meta.name] == b
  }

  ghost predicate BindingUpToDate(c: Cluster, ns: Namespace, b: Binding) {
    BindingHeld(c, ns, b) && b.className == ns.ClassName()
  }

  /** No object to apply exists as somebody else's. */
  ghost predicate NoneForeign(store: Store, uid: string, resources: seq<Prepared>) {
    forall p | p in resources :: !Foreign(store.objects, p.ref, uid)
  }

  ghost predicate AllWellPrepared(setup: Setup, meta: Meta, resources: seq<Prepared>) {
    forall p | p in resources :: WellPrepared(setup, meta, p)
  }

  ghost predicate ResourcesOk(setup: Setup, c: Cluster, ns: Namespace, b: Binding, cls: NamespaceClass,
                              resources: seq<Prepared>) {
    && Labelled(ns) && ns.HasFinalizer()
    && cls.name == b.className
    && Desires(setup, ns.meta, cls, resources)
    && AllWellPrepared(setup, ns.meta, resources)
    && NoneForeign(c.store, ns.meta.uid, resources)
  }

  ghost predicate ApplyingOk(setup: Setup, c: Cluster, phase: Phase)
    requires phase.Applying? && InBounds(phase)
  {
    && BindingUpToDate(c, phase.ns, phase.binding)
    && ResourcesOk(setup, c, phase.ns, phase.binding, phase.cls, phase.resources)
    && AllRecordable(Refs(phase.resources[..phase.k]))
    && c.store == ApplyAll(phase.start, phase.ns.meta.uid, phase.resources[..phase.k])
  }

  ghost predicate WhyOk(setup: Setup, phase: Phase)
    requires phase.Deleting?
  {
    var ns, b := phase.ns, phase.binding;
    match phase.why
    case NamespaceGone =>
      ns.deleting && phase.todo == ClusterScoped(b.status.inventory) && phase.keep == []
    case LabelGone => !ns.deleting && phase.todo == b.status.inventory && phase.keep == []
    case ClassGone => !ns.deleting && phase.todo == b.status.inventory && phase.keep == []
    case Stale(cls, resources, base) =>
      && phase.start == ApplyAll(base, ns.meta.uid, resources)
      && phase.todo == b.status.inventory && phase.keep == Sorted(Refs(resources))
      && b.className == ns.ClassName()
      && Labelled(ns) && ns.HasFinalizer()
      && cls.name == b.className
      && Desires(setup, ns.meta, cls, resources)
      && AllWellPrepared(setup, ns.meta, resources)
      && AllRecordable(Refs(resources))
  }

  ghost predicate DeletingOk(setup: Setup, c: Cluster, phase: Phase)
    requires phase.Deleting? && InBounds(phase)
  {
    && BindingHeld(c, phase.ns, phase.binding)
    && WhyOk(setup, phase)
    && (forall j | 0 <= j < phase.i :: Key(phase.todo[j]) in Keys(phase.keep) || ObjectOf(phase.todo[j]).Some?)
    && c.store == phase.start.Remove(StaleObjects(phase.todo[..phase.i], phase.keep))
  }

  ghost predicate RecordingOk(c: Cluster, phase: Phase)
    requires phase.Recording?
  {
    var n, b := phase.ns.meta.name, phase.binding;
    && n in c.bindings
    && b.namespaceName == n && b.className == c.bindings[n].className && b.generation == c.bindings[n].generation
    && GoodInventory(n, b.status.inventory)
    && (forall id | Owns(c, n, id) && Relevant(phase.ns, id) ::
          id in ObjectsOf(b.status.inventory) || id in c.store.pending)
    && (forall id | id in phase.claimed ::
          id in c.store.applied ==> c.store.applied[id] == phase.ns.meta.uid)
  }

  /** Nothing applied for the namespace is left to clean up. */
  ghost predicate Clean(c: Cluster, ns: Namespace) {
    forall id | Owns(c, ns.meta.name, id) && Relevant(ns, id) :: id in c.store.pending
  }

  ghost predicate PhaseOk(setup: Setup, s: Config)
    requires InBounds(s.phase)
  {
    !s.phase.Idle? ==>
      && Held(s.c, s.phase.ns)
      && match s.phase
         case NamespaceRead(_) => true
         case ClassRead(ns, found) => Labelled(ns) && FoundOk(ns, found)
         case Guarded(ns, found) =>
           Labelled(ns) && FoundOk(ns, found) && (found.Some? ==> ns.HasFinalizer())
         case Bound(ns, found, b) =>
           && Labelled(ns) && FoundOk(ns, found) && (found.Some? ==> ns.HasFinalizer())
           && BindingUpToDate(s.c, ns, b)
         case Applying(_, _, _, _, _, _) => ApplyingOk(setup, s.c, s.phase)
         case Deleting(_, _, _, _, _, _, _) => DeletingOk(setup, s.c, s.phase)
         case Recording(_, _, _, _) => RecordingOk(s.c, s.phase)
         case Dropping(ns) => Clean(s.c, ns)
         case Releasing(ns) => Clean(s.c, ns)
  }

  // ----- All together -----

  /** The part of the invariant that does not mention the pass. */
  ghost predicate ClusterInv(c: Cluster) {
    && Named(c) && UidsOk(c) && StoreOk(c) && OwnedScoped(c)
    && InventoriesGood(c) && GuardedByFinalizer(c) && NoOrphans(c)
  }

  ghost predicate Inv(setup: Setup, s: Config) {
    && InBounds(s.phase)
    && ClusterInv(s.c)
    && PhaseOk(setup, s)
    && Covered(s)
  }

  lemma InitInv(setup: Setup, s: Config)
    requires Init(s)
    ensures Inv(setup, s)
  {
  }

  // ----- Lists of references -----

  lemma {:induction false} ClusterScopedMembers(refs: seq<ResourceRef>)
    ensures forall r :: r in ClusterScoped(refs) <==> r in refs && r.namespace == ""
  {
    if refs != [] {
      var n := |refs| - 1;
      ClusterScopedMembers(refs[..n]);
      assert refs == refs[..n] + [refs[n]];
    }
  }

  /** The filter goes through the list in order, one reference at a time. */
  lemma ClusterScopedInOrder(a: seq<ResourceRef>, r: ResourceRef, b: seq<ResourceRef>)
    ensures ClusterScoped(a + [r] + b) == ClusterScoped(a) + (if r.namespace == "" then [r] else []) + ClusterScoped(b)
  {
    assert ClusterScoped(a + [r]) == ClusterScoped(a) + (if r.namespace == "" then [r] else []) by {
      assert (a + [r])[..|a|] == a;
    }
    hide ClusterScoped;
    ClusterScopedConcat(a + [r], b);
  }

  lemma {:induction false} ClusterScopedConcat(a: seq<ResourceRef>, b: seq<ResourceRef>)
    ensures ClusterScoped(a + b) == ClusterScoped(a) + ClusterScoped(b)
  {
    if b == [] {
      assert a + b == a;
    } else {
      var n := |b| - 1;
      assert (a + b)[..|a + b| - 1] == a + b[..n];
      ClusterScopedConcat(a, b[..n]);
    }
  }

  lemma RefsPrefix(resources: seq<Prepared>, k: nat)
    requires k < |resources|
    ensures Refs(resources[..k + 1]) == Refs(resources[..k]) + [resources[k].ref]
  {
  }

  lemma ObjectsOfSnoc(refs: seq<ResourceRef>, r: ResourceRef)
    requires ObjectOf(r).Some?
    ensures ObjectsOf(refs + [r]) == ObjectsOf(refs) + {ObjectOf(r).value}
  {
    hide ObjectOf;
    assert r in refs + [r];
    forall x | x in refs
      ensures x in refs + [r]
    {
    }
  }

  lemma StaleObjectsSnoc(todo: seq<ResourceRef>, keep: seq<ResourceRef>, i: nat)
    requires i < |todo|
    ensures StaleObjects(todo[..i + 1], keep)
            == StaleObjects(todo[..i], keep)
               + (if Key(todo[i]) in Keys(keep) || ObjectOf(todo[i]).None? then {} else {ObjectOf(todo[i]).value})
  {
    hide ObjectOf, Key, Keys;
    assert todo[..i + 1] == todo[..i] + [todo[i]];
  }

  lemma RefsMember(resources: seq<Prepared>, p: Prepared)
    requires p in resources
    ensures p.ref in Refs(resources)
  {
    var i :| 0 <= i < |resources| && resources[i] == p;
    assert Refs(resources)[i] == p.ref;
  }

  lemma RefsMemberInverse(resources: seq<Prepared>, r: ResourceRef) returns (p: Prepared)
    requires r in Refs(resources)
    ensures p in resources && p.ref == r
  {
    var i :| 0 <= i < |resources| && Refs(resources)[i] == r;
    p := resources[i];
  }

  /** The references of well-prepared objects the server accepts make a good inventory. */
  lemma PreparedInventory(setup: Setup, meta: Meta, resources: seq<Prepared>)
    requires AllWellPrepared(setup, meta, resources) && AllRecordable(Refs(resources))
    ensures GoodInventory(meta.name, Sorted(Refs(resources)))
    ensures ObjectsOf(Sorted(Refs(resources))) == ObjectsOf(Refs(resources))
  {
    hide Key, Sorted, Canonical, ObjectOf, WellPrepared, Recordable;
    SortedIsCanonical(Refs(resources));
    SortedMembers(Refs(resources));
    PreparedScopes(setup, meta, resources);
  }

  lemma PreparedScopes(setup: Setup, meta: Meta, resources: seq<Prepared>)
    requires AllWellPrepared(setup, meta, resources)
    ensures forall r | r in Refs(resources) :: r.namespace == "" || r.namespace == meta.name
  {
    hide WellPrepared;
    forall r | r in Refs(resources)
      ensures r.namespace == "" || r.namespace == meta.name
    {
      var p := RefsMemberInverse(resources, r);
      WellPreparedScope(setup, meta, p);
    }
  }

  lemma WellPreparedScope(setup: Setup, meta: Meta, p: Prepared)
    requires WellPrepared(setup, meta, p)
    ensures p.ref.namespace == "" || p.ref.namespace == meta.name
    ensures ObjectOf(p.ref).Some? && U.IsManagedBy(p.content, meta.uid)
  {
  }

  /** Merging in references of prepared objects keeps an inventory good and adds their objects. */
  lemma MergedInventory(n: string, inventory: seq<ResourceRef>, refs: seq<ResourceRef>)
    requires GoodInventory(n, inventory) && AllRecordable(refs)
    requires forall r | r in refs :: r.namespace == "" || r.namespace == n
    ensures GoodInventory(n, Merge(inventory, refs))
    ensures ObjectsOf(Merge(inventory, refs)) == ObjectsOf(inventory) + ObjectsOf(refs)
  {
    hide Key, Merge, Canonical, ObjectOf, Recordable;
    MergeIsUnion(inventory, refs);
    MergeMembers(inventory, refs);
  }
}
