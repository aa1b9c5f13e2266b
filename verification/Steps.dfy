/** Every step keeps the invariant, phase by phase. */
module Steps {
  import opened Wrappers
  import opened ResourceRefs
  import opened Cluster
  import opened Prepare
  import opened Machine
  import opened Invariants
  import U = Unstructured

  // ----- Loops that have not started -----

  lemma RemoveNothing(store: Store, keep: seq<ResourceRef>, todo: seq<ResourceRef>)
    ensures store == store.Remove(StaleObjects(todo[..0], keep))
  {
    hide ObjectOf, Key, Keys;
    assert StaleObjects(todo[..0], keep) == {};
    assert store.objects - {} == store.objects && store.applied - {} == store.applied;
  }

  lemma NothingRecorded(setup: Setup, s: Config)
    requires Inv(setup, s) && !s.phase.Idle? && Claimed(s.phase) == {}
    requires s.phase.ns.meta.name !in s.c.bindings
    ensures Clean(s.c, s.phase.ns)
  {
    hide ClusterInv;
  }

  lemma NamespaceReadStep(setup: Setup, s: Config)
    requires Inv(setup, s) && s.phase.NamespaceRead?
    ensures Inv(setup, AfterNamespaceRead(s))
  {
    hide ClusterInv, ObjectOf, Key, Keys;
    var ns, n := s.phase.ns, s.phase.ns.meta.name;
    if n in s.c.bindings {
      var inventory := s.c.bindings[n].status.inventory;
      RemoveNothing(s.c.store, [], ClusterScoped(inventory));
      RemoveNothing(s.c.store, [], inventory);
    } else {
      NothingRecorded(setup, s);
    }
    if !ns.deleting && ns.ClassName() in s.c.classes {
      ClassesNamed(s.c, ns.ClassName());
    }
  }

  lemma ClassesNamed(c: Cluster, k: string)
    requires ClusterInv(c) && k in c.classes
    ensures c.classes[k].name == k
  {
  }

  lemma ClassReadStep(setup: Setup, s: Config)
    requires Inv(setup, s) && s.phase.ClassRead?
    ensures Inv(setup, AfterClassRead(s))
  {
    hide ClusterInv, Covered;
    var s' := AfterClassRead(s);
    if s'.c != s.c {
      NamedByKey(s.c, s.phase.ns.meta.name);
      WriteKeepsCluster(s.c, WithFinalizer(s.phase.ns));
    }
    SameCoverage(s, s');
  }

  lemma NamedByKey(c: Cluster, n: string)
    requires ClusterInv(c) && n in c.namespaces
    ensures c.namespaces[n].meta.name == n
  {
  }

  // ----- The binding -----

  lemma GuardedStep(setup: Setup, s: Config)
    requires Inv(setup, s) && s.phase.Guarded?
    ensures Inv(setup, AfterGuarded(s))
  {
    hide ClusterInv, Covered, Recorded, GoodInventory;
    var s' := AfterGuarded(s);
    var n, b := s.phase.ns.meta.name, BindingFor(s.c, s.phase.ns);
    BindingForOk(s.c, s.phase.ns);
    BindKeepsCluster(s.c, n, b);
    assert forall m :: Recorded(s'.c, m) == Recorded(s.c, m) by {
      BindKeepsRecords(s.c, n, b);
    }
    SameCoverage(s, s');
  }

  /** Writing a binding with a good inventory keeps the cluster's part of the invariant. */
  lemma BindKeepsCluster(c: Cluster, n: string, b: Binding)
    requires ClusterInv(c) && b.namespaceName == n && GoodInventory(n, b.status.inventory)
    ensures ClusterInv(c.(bindings := c.bindings[n := b]))
  {
    hide GoodInventory;
    var c' := c.(bindings := c.bindings[n := b]);
    assert forall m, x :: Owns(c', m, x) <==> Owns(c, m, x);
    SameGuards(c, c');
  }

  lemma SameGuards(c: Cluster, c': Cluster)
    requires c'.namespaces == c.namespaces && c'.store == c.store
    requires forall m, x :: Owns(c', m, x) <==> Owns(c, m, x)
    requires GuardedByFinalizer(c) && NoOrphans(c) && OwnedScoped(c)
    ensures GuardedByFinalizer(c') && NoOrphans(c') && OwnedScoped(c')
  {
    hide Owns;
  }

  lemma BindKeepsRecords(c: Cluster, n: string, b: Binding)
    requires n in c.bindings ==> b.status.inventory == c.bindings[n].status.inventory
    requires n !in c.bindings ==> b.status.inventory == []
    ensures forall m :: Recorded(c.(bindings := c.bindings[n := b]), m) == Recorded(c, m)
  {
    NoObjects();
    hide ObjectsOf;
  }

  lemma NoObjects()
    ensures ObjectsOf([]) == {}
  {
  }

  lemma BindingForOk(c: Cluster, ns: Namespace)
    requires ClusterInv(c)
    ensures var b := BindingFor(c, ns);
            && b.namespaceName == ns.meta.name && b.className == ns.ClassName()
            && GoodInventory(ns.meta.name, b.status.inventory)
            && (ns.meta.name in c.bindings ==> b.status == c.bindings[ns.meta.name].status)
            && (ns.meta.name !in c.bindings ==> b.status.inventory == [])
  {
    hide ObjectsOf, Desires, Sorted, Recordable;
  }

  lemma BoundStep(setup: Setup, s: Config, broken: nat)
    requires Inv(setup, s) && s.phase.Bound?
    ensures s.phase.found.None? ==> Inv(setup, AfterBound(setup, s))
    ensures s.phase.found.Some? ==> Inv(setup, AfterPrepare(setup, s, broken))
  {
    hide ClusterInv, ObjectOf, Key, Keys, Shaped, WellPrepared, Foreign, PreparedAll, ObjectsOf, Merge;
    var ns, b := s.phase.ns, s.phase.binding;
    if s.phase.found.None? {
      RemoveNothing(s.c.store, [], b.status.inventory);
    } else {
      var cls := s.phase.found.value;
      match PreparedAll(setup, ns.meta, cls, s.c.store.objects, broken) {
        case Success(resources) =>
          PreparedResources(setup, s, broken, resources);
          NoObjects();
          assert resources[..0] == [];
        case Failure(reason) =>
          FailedRecording(setup, s, reason, broken);
      }
    }
  }

  lemma PreparedResources(setup: Setup, s: Config, broken: nat, resources: seq<Prepared>)
    requires Inv(setup, s) && s.phase.Bound? && s.phase.found.Some?
    requires PreparedAll(setup, s.phase.ns.meta, s.phase.found.value, s.c.store.objects, broken) == Success(resources)
    ensures ResourcesOk(setup, s.c, s.phase.ns, s.phase.binding, s.phase.found.value, resources)
  {
    hide ClusterInv, ObjectOf, Key, Keys, Shaped, WellPrepared, Foreign, PreparedAll;
    var meta, cls := s.phase.ns.meta, s.phase.found.value;
    PrepareGate(setup, meta, cls, s.c.store.objects, broken);
    PreparedIsDesired(setup, meta, cls, s.c.store.objects, broken);
  }

  lemma StoredBinding(setup: Setup, s: Config, b: Binding)
    requires Inv(setup, s) && !s.phase.Idle? && BindingHeld(s.c, s.phase.ns, b)
    ensures b.namespaceName == s.phase.ns.meta.name
    ensures GoodInventory(s.phase.ns.meta.name, b.status.inventory)
    ensures forall id | Owns(s.c, s.phase.ns.meta.name, id) && Relevant(s.phase.ns, id) ::
              id in ObjectsOf(b.status.inventory) || id in s.c.store.pending || id in Claimed(s.phase)
  {
    hide ObjectsOf, Desires, Sorted, Recordable, Canonical;
  }

  lemma FailedRecording(setup: Setup, s: Config, reason: Reason, broken: nat)
    requires Inv(setup, s) && s.phase.Bound? && s.phase.found.Some?
    requires AfterPrepare(setup, s, broken).phase
             == Recording(s.phase.ns,
                          Failed(s.phase.binding, s.phase.ns.meta.uid, s.phase.found.value.generation, reason,
                                 Merge(s.phase.binding.status.inventory, [])),
                          {}, false)
    requires AfterPrepare(setup, s, broken).c == s.c
    ensures Inv(setup, AfterPrepare(setup, s, broken))
  {
    hide ClusterInv, ObjectOf, ObjectsOf, Key, Keys, AfterPrepare, Merge, Desires, Canonical, Recordable;
    StoredBinding(setup, s, s.phase.binding);
    MergedInventory(s.phase.ns.meta.name, s.phase.binding.status.inventory, []);
    NoObjects();
  }

  // ----- Applying -----

  lemma ApplyFailureStep(setup: Setup, s: Config, reason: Reason)
    requires Inv(setup, s) && s.phase.Applying?
    ensures Inv(setup, ApplyFailure(s, reason))
  {
    hide ClusterInv, ObjectOf, ObjectsOf, Key, Keys, Merge, Desires, Canonical, Recordable, WellPrepared, Foreign;
    var ns, b, done := s.phase.ns, s.phase.binding, s.phase.resources[..s.phase.k];
    StoredBinding(setup, s, b);
    AppliedPrefix(setup, s);
    MergedInventory(ns.meta.name, b.status.inventory, Refs(done));
    ClaimedOwned(setup, s);
  }

  lemma AppliedPrefix(setup: Setup, s: Config)
    requires Inv(setup, s) && s.phase.Applying?
    ensures forall r | r in Refs(s.phase.resources[..s.phase.k]) ::
              r.namespace == "" || r.namespace == s.phase.ns.meta.name
  {
    hide ClusterInv, WellPrepared, Desires;
    var done := s.phase.resources[..s.phase.k];
    assert forall p | p in done :: p in s.phase.resources;
    PreparedScopes(setup, s.phase.ns.meta, done);
  }

  /** What the pass claims was applied for its namespace. */
  lemma ClaimedOwned(setup: Setup, s: Config)
    requires Inv(setup, s) && !s.phase.Idle?
    ensures forall id | id in Claimed(s.phase) && id in s.c.store.applied ::
              s.c.store.applied[id] == s.phase.ns.meta.uid
  {
    hide ClusterInv, ObjectOf, WellPrepared, Desires, Recordable, Foreign, Covered;
    if s.phase.Applying? {
      ApplyAllOwns(s.phase.start, s.phase.ns.meta.uid, s.phase.resources[..s.phase.k]);
    } else if s.phase.Deleting? && s.phase.why.Stale? {
      ApplyAllOwns(s.phase.why.base, s.phase.ns.meta.uid, s.phase.why.resources);
    }
  }

  lemma PrefixObjects(resources: seq<Prepared>, k: nat, id: ObjectId)
    requires k <= |resources| && id in ObjectsOf(Refs(resources[..k]))
    ensures id in ObjectsOf(Refs(resources))
  {
    hide ObjectOf;
    var r :| r in Refs(resources[..k]) && ObjectOf(r).Some? && ObjectOf(r).value == id;
    var p := RefsMemberInverse(resources[..k], r);
    RefsMember(resources, p);
  }

  lemma {:induction false} ApplyAllOwns(store: Store, uid: string, resources: seq<Prepared>)
    ensures forall id | id in ObjectsOf(Refs(resources)) ::
              id in ApplyAll(store, uid, resources).applied && ApplyAll(store, uid, resources).applied[id] == uid
  {
    hide ObjectOf;
    if resources != [] {
      var n := |resources| - 1;
      ApplyAllOwns(store, uid, resources[..n]);
      assert Refs(resources) == Refs(resources[..n]) + [resources[n].ref];
    }
  }

  /** Applying an accepted object keeps the cluster's part of the invariant. */
  lemma ApplyKeepsCluster(setup: Setup, s: Config, id: ObjectId, content: U.Fields)
    requires Inv(setup, s) && s.phase.Applying?
    requires id.namespace == "" || id.namespace == s.phase.ns.meta.name
    ensures ClusterInv(s.c.(store := s.c.store.Apply(id, content, s.phase.ns.meta.uid)))
  {
    hide Desires, Recordable, Canonical, WellPrepared, Foreign, Owns;
    hide GuardedByFinalizer, NoOrphans, Relevant, OwnedScoped, Covered;
    var n, uid := s.phase.ns.meta.name, s.phase.ns.meta.uid;
    var c, c' := s.c, s.c.(store := s.c.store.Apply(id, content, s.phase.ns.meta.uid));
    assert s.phase.ns.HasFinalizer();
    ApplyOwns(c, c', n, id, content);
    ApplyKeepsOwners(c, c', n, id);
  }

  lemma ApplyOwns(c: Cluster, c': Cluster, n: string, id: ObjectId, content: U.Fields)
    requires UidsOk(c) && n in c.namespaces
    requires c' == c.(store := c.store.Apply(id, content, c.namespaces[n].meta.uid))
    ensures forall m, x | x != id :: Owns(c', m, x) <==> Owns(c, m, x)
    ensures Owns(c', n, id)
    ensures forall m | Owns(c', m, id) :: m == n
  {
  }

  lemma ApplyKeepsOwners(c: Cluster, c': Cluster, n: string, id: ObjectId)
    requires n in c.namespaces && c.namespaces[n].HasFinalizer()
    requires id.namespace == "" || id.namespace == n
    requires c'.namespaces == c.namespaces && c'.store.pending == c.store.pending - {id}
    requires c'.store.applied.Keys == c.store.applied.Keys + {id}
    requires forall m, x | x != id :: Owns(c', m, x) <==> Owns(c, m, x)
    requires Owns(c', n, id)
    requires forall m | Owns(c', m, id) :: m == n
    requires GuardedByFinalizer(c) && NoOrphans(c) && OwnedScoped(c)
    ensures GuardedByFinalizer(c') && NoOrphans(c') && OwnedScoped(c')
  {
    hide Owns;
  }

  lemma ApplyStep(setup: Setup, s: Config)
    requires Inv(setup, s) && s.phase.Applying? && s.phase.k < |s.phase.resources|
    requires Recordable(s.phase.resources[s.phase.k].ref)
    ensures Inv(setup, AfterApplying(s))
  {
    hide ClusterInv, Desires, Canonical, WellPrepared, Foreign, ObjectsOf, ResourcesOk;
    var ns, k, resources := s.phase.ns, s.phase.k, s.phase.resources;
    var p, id, uid := resources[k], ObjectOf(resources[k].ref).value, ns.meta.uid;
    var s' := AfterApplying(s);
    assert p in resources;
    ResourceOk(setup, s, p);
    ApplyKeepsCluster(setup, s, id, p.content);
    RefsPrefix(resources, k);
    ObjectsOfSnoc(Refs(resources[..k]), p.ref);
    assert resources[..k + 1][..k] == resources[..k];
    assert s'.c.store == ApplyAll(s.phase.start, uid, resources[..k + 1]);
    ApplyKeepsResources(setup, s, id, p.content);
    ApplyCovers(setup, s, s', id);
  }

  lemma ResourceOk(setup: Setup, s: Config, p: Prepared)
    requires Inv(setup, s) && s.phase.Applying? && p in s.phase.resources
    ensures p.ref.namespace == "" || p.ref.namespace == s.phase.ns.meta.name
    ensures ObjectOf(p.ref).Some? && U.IsManagedBy(p.content, s.phase.ns.meta.uid)
  {
    hide ClusterInv, Desires, WellPrepared, Recordable, Foreign, ObjectOf;
    WellPreparedScope(setup, s.phase.ns.meta, p);
  }

  lemma ApplyKeepsResources(setup: Setup, s: Config, id: ObjectId, content: U.Fields)
    requires Inv(setup, s) && s.phase.Applying?
    requires U.IsManagedBy(content, s.phase.ns.meta.uid)
    ensures ResourcesOk(setup, s.c.(store := s.c.store.Apply(id, content, s.phase.ns.meta.uid)), s.phase.ns,
                        s.phase.binding, s.phase.cls, s.phase.resources)
  {
    hide ClusterInv, Desires, WellPrepared, Recordable, U.IsManagedBy, Covered;
  }

  lemma ApplyCovers(setup: Setup, s: Config, s': Config, id: ObjectId)
    requires Inv(setup, s) && s.phase.Applying? && s.phase.k < |s.phase.resources|
    requires s'.phase == s.phase.(k := s.phase.k + 1)
    requires exists content :: s'.c == s.c.(store := s.c.store.Apply(id, content, s.phase.ns.meta.uid))
    requires Claimed(s'.phase) == Claimed(s.phase) + {id}
    ensures Covered(s')
  {
    hide PhaseOk, Claimed, ObjectsOf, InventoriesGood, GuardedByFinalizer;
    var n := s.phase.ns.meta.name;
    assert Held(s.c, s.phase.ns) by { PhaseHolds(setup, s); }
    assert forall m :: Recorded(s'.c, m) == Recorded(s.c, m);
    assert forall m, x | x != id :: Owns(s'.c, m, x) <==> Owns(s.c, m, x);
    assert forall m | Owns(s'.c, m, id) :: m == n;
  }

  lemma PhaseHolds(setup: Setup, s: Config)
    requires Inv(setup, s) && !s.phase.Idle?
    ensures Held(s.c, s.phase.ns)
  {
    hide ClusterInv;
  }

  lemma ApplyingStep(setup: Setup, s: Config)
    requires Inv(setup, s) && s.phase.Applying?
    ensures Inv(setup, AfterApplying(s))
  {
    hide ClusterInv, Desires, Canonical, WellPrepared, Foreign, ObjectsOf, Keys, ObjectOf;
    var k, resources := s.phase.k, s.phase.resources;
    if k == |resources| {
      assert resources[..k] == resources;
      RemoveNothing(s.c.store, Sorted(Refs(resources)), s.phase.binding.status.inventory);
    } else if Recordable(resources[k].ref) {
      ApplyStep(setup, s);
    } else {
      ApplyFailureStep(setup, s, ApplyFailed);
    }
  }

  // ----- Deleting -----

  lemma DeleteFailureStep(setup: Setup, s: Config)
    requires Inv(setup, s) && s.phase.Deleting?
    ensures Inv(setup, DeleteFailure(s))
  {
    hide ClusterInv, ObjectOf, ObjectsOf, Key, Keys, Merge, Desires, Canonical, Recordable, WellPrepared, Sorted;
    var ns, b := s.phase.ns, s.phase.binding;
    StoredBinding(setup, s, b);
    ClaimedOwned(setup, s);
    if s.phase.why.Stale? {
      var resources := s.phase.why.resources;
      PreparedInventory(setup, ns.meta, resources);
      MergedInventory(ns.meta.name, b.status.inventory, Sorted(Refs(resources)));
    }
  }

  /** Removing objects keeps the cluster's part of the invariant. */
  lemma RemoveKeepsCluster(setup: Setup, c: Cluster, ids: set<ObjectId>)
    requires ClusterInv(c)
    ensures ClusterInv(c.(store := c.store.Remove(ids)))
  {
    hide Desires, Recordable, Canonical;
    var c' := c.(store := c.store.Remove(ids));
    assert forall m, x | x !in ids :: Owns(c', m, x) <==> Owns(c, m, x);
    assert forall m, x | x in ids :: !Owns(c', m, x);
  }

  lemma RemoveMore(store: Store, ids: set<ObjectId>, id: ObjectId)
    ensures store.Remove(ids).Remove({id}) == store.Remove(ids + {id})
  {
    assert store.objects - ids - {id} == store.objects - (ids + {id});
    assert store.applied - ids - {id} == store.applied - (ids + {id});
  }

  lemma RemoveAbsent(store: Store, id: ObjectId)
    requires id !in store.objects && store.applied.Keys <= store.objects.Keys && store.pending <= store.applied.Keys
    ensures store.Remove({id}) == store
  {
    assert store.objects - {id} == store.objects;
    assert store.applied - {id} == store.applied;
  }

  /** Passing over the current reference, or removing its object. */
  lemma AdvanceStep(setup: Setup, s: Config, s': Config)
    requires Inv(setup, s) && s.phase.Deleting? && s.phase.i < |s.phase.todo|
    requires s'.phase == s.phase.(i := s.phase.i + 1)
    requires Key(s.phase.todo[s.phase.i]) in Keys(s.phase.keep) ==> s'.c == s.c
    requires Key(s.phase.todo[s.phase.i]) !in Keys(s.phase.keep) ==>
               && ObjectOf(s.phase.todo[s.phase.i]).Some?
               && var id := ObjectOf(s.phase.todo[s.phase.i]).value;
                  s'.c == s.c.(store := s.c.store.Remove({id}))
    ensures Inv(setup, s')
  {
    hide ClusterInv, WhyOk, ObjectOf, Key, Keys, Covered, Desires, Canonical, Recordable, WellPrepared;
    var todo, keep, i := s.phase.todo, s.phase.keep, s.phase.i;
    StaleObjectsSnoc(todo, keep, i);
    var ids := StaleObjects(todo[..i], keep);
    if Key(todo[i]) !in Keys(keep) {
      var id := ObjectOf(todo[i]).value;
      RemoveKeepsCluster(setup, s.c, {id});
      RemoveMore(s.phase.start, ids, id);
    } else {
      assert ids + {} == ids;
    }
    assert WhyOk(setup, s'.phase) by { WhyOkFrame(setup, s, s'); }
    AdvanceCovers(setup, s, s');
  }

  lemma WhyOkFrame(setup: Setup, s: Config, s': Config)
    requires s.phase.Deleting? && WhyOk(setup, s.phase)
    requires s'.phase == s.phase.(i := s.phase.i + 1)
    ensures WhyOk(setup, s'.phase)
  {
    hide Desires, AllWellPrepared, AllRecordable, Sorted, ClusterScoped;
  }

  lemma AdvanceCovers(setup: Setup, s: Config, s': Config)
    requires Covered(s) && s.phase.Deleting?
    requires s'.phase == s.phase.(i := s.phase.i + 1)
    requires s'.c == s.c || exists id :: s'.c == s.c.(store := s.c.store.Remove({id}))
    ensures Covered(s')
  {
    hide ObjectsOf;
    assert Claimed(s'.phase) == Claimed(s.phase);
    assert forall m :: Recorded(s'.c, m) == Recorded(s.c, m);
    assert forall m, x | Owns(s'.c, m, x) :: Owns(s.c, m, x);
  }

  lemma DeletingStep(setup: Setup, s: Config)
    requires Inv(setup, s) && s.phase.Deleting?
    ensures Inv(setup, AfterDeleting(s))
  {
    hide ClusterInv, PhaseOk, Covered, ObjectOf, Key, Keys, ObjectsOf, U.IsManagedBy;
    var i, todo := s.phase.i, s.phase.todo;
    if i == |todo| {
      if s.phase.why.Stale? {
        StaleDone(setup, s);
      } else {
        CleanupDone(setup, s);
      }
    } else if Key(todo[i]) in Keys(s.phase.keep) {
      AdvanceStep(setup, s, AfterDeleting(s));
    } else if ObjectOf(todo[i]).None? {
      DeleteFailureStep(setup, s);
    } else {
      var id := ObjectOf(todo[i]).value;
      if id !in s.c.store.objects {
        StoreIsOk(setup, s.c);
        RemoveAbsent(s.c.store, id);
        AdvanceStep(setup, s, AfterDeleting(s));
      } else if !U.IsManagedBy(s.c.store.objects[id], s.phase.ns.meta.uid) {
        DeleteFailureStep(setup, s);
      } else {
        AdvanceStep(setup, s, AfterDeleting(s));
      }
    }
  }

  lemma StoreIsOk(setup: Setup, c: Cluster)
    requires ClusterInv(c)
    ensures StoreOk(c)
  {
  }

  lemma CleanupDone(setup: Setup, s: Config)
    requires Inv(setup, s) && s.phase.Deleting? && s.phase.i == |s.phase.todo| && !s.phase.why.Stale?
    ensures Inv(setup, AfterDeleting(s))
  {
    hide ClusterInv, Desires, Canonical, Recordable, WellPrepared;
    CleanupLeavesNothing(setup, s);
  }

  /** A cleanup that got through its list has removed every relevant object the inventory names. */
  lemma CleanupLeavesNothing(setup: Setup, s: Config)
    requires Inv(setup, s) && s.phase.Deleting? && s.phase.i == |s.phase.todo| && !s.phase.why.Stale?
    ensures Clean(s.c, s.phase.ns)
  {
    hide ClusterInv, Desires, Canonical, Recordable, WellPrepared, Key;
    var ns, b, todo := s.phase.ns, s.phase.binding, s.phase.todo;
    StoredBinding(setup, s, b);
    ClusterScopedMembers(b.status.inventory);
    assert todo[..|todo|] == todo;
    assert Keys([]) == {};
    forall id | id in ObjectsOf(b.status.inventory) && Relevant(ns, id)
      ensures id in StaleObjects(todo, [])
    {
      var r :| r in b.status.inventory && ObjectOf(r).Some? && ObjectOf(r).value == id;
      assert r in todo;
    }
  }

  lemma StaleDone(setup: Setup, s: Config)
    requires Inv(setup, s) && s.phase.Deleting? && s.phase.i == |s.phase.todo| && s.phase.why.Stale?
    ensures Inv(setup, AfterDeleting(s))
  {
    hide ClusterInv, ObjectOf, Key, Keys, ObjectsOf, Desires, Canonical, Recordable, WellPrepared, Sorted;
    var ns, b, resources := s.phase.ns, s.phase.binding, s.phase.why.resources;
    StoredBinding(setup, s, b);
    ClaimedOwned(setup, s);
    PreparedInventory(setup, ns.meta, resources);
    StaleLeavesKept(setup, s);
  }

  /** Of the recorded objects, only those named by a kept reference are left. */
  lemma StaleLeavesKept(setup: Setup, s: Config)
    requires Inv(setup, s) && s.phase.Deleting? && s.phase.i == |s.phase.todo| && s.phase.why.Stale?
    ensures forall id | id in ObjectsOf(s.phase.binding.status.inventory) && id in s.c.store.applied ::
              id in ObjectsOf(s.phase.keep)
  {
    hide ClusterInv, Key, ObjectOf, Desires, Canonical, WellPrepared, Sorted;
    var b, todo, keep := s.phase.binding, s.phase.todo, s.phase.keep;
    StoredBinding(setup, s, b);
    PreparedInventory(setup, s.phase.ns.meta, s.phase.why.resources);
    assert todo[..|todo|] == todo;
    forall id | id in ObjectsOf(b.status.inventory) && id in s.c.store.applied
      ensures id in ObjectsOf(keep)
    {
      var r :| r in b.status.inventory && ObjectOf(r).Some? && ObjectOf(r).value == id;
      assert id !in StaleObjects(todo, keep);
      assert Key(r) in Keys(keep);
      var q :| q in keep && Key(q) == Key(r);
      KeyInjective(r, q);
    }
  }

  // ----- Ending -----

  lemma RecordingStep(setup: Setup, s: Config)
    requires Inv(setup, s) && s.phase.Recording?
    ensures Inv(setup, AfterRecording(s))
  {
    hide ClusterInv, ObjectsOf, GoodInventory;
    var n, b, c, s' := s.phase.ns.meta.name, s.phase.binding, s.c, AfterRecording(s);
    BindKeepsCluster(c, n, b);
    assert forall m, x :: Owns(s'.c, m, x) <==> Owns(c, m, x);
    assert forall m | m != n :: Recorded(s'.c, m) == Recorded(c, m);
    assert Recorded(s'.c, n) == ObjectsOf(b.status.inventory);
  }

  lemma DroppingStep(setup: Setup, s: Config)
    requires Inv(setup, s) && s.phase.Dropping?
    ensures Inv(setup, AfterDropping(s))
  {
    hide ClusterInv, ObjectsOf;
    var n, c, s' := s.phase.ns.meta.name, s.c, AfterDropping(s);
    DropKeepsCluster(c, n);
    assert forall m, x :: Owns(s'.c, m, x) <==> Owns(c, m, x);
    assert forall m | m != n :: Recorded(s'.c, m) == Recorded(c, m);
  }

  lemma DropKeepsCluster(c: Cluster, n: string)
    requires ClusterInv(c)
    ensures ClusterInv(c.(bindings := c.bindings - {n}))
  {
    hide GoodInventory;
    var c' := c.(bindings := c.bindings - {n});
    assert forall m, x :: Owns(c', m, x) <==> Owns(c, m, x);
    SameGuards(c, c');
  }

  /** Writing a namespace keeps the cluster's part of the invariant, if it keeps the UID, does not undo a
      deletion, and leaves the finalizer where something is left to clean up. */
  lemma WriteKeepsCluster(c: Cluster, ns: Namespace)
    requires ClusterInv(c) && ns.meta.name in c.namespaces
    requires var before := c.namespaces[ns.meta.name];
             ns.meta.uid == before.meta.uid && (before.deleting ==> ns.deleting)
    requires c.namespaces[ns.meta.name].HasFinalizer() ==> ns.HasFinalizer() || Clean(c, ns)
    ensures ClusterInv(c.(namespaces := c.namespaces[ns.meta.name := ns]))
  {
    hide InventoriesGood;
    var n, c' := ns.meta.name, c.(namespaces := c.namespaces[ns.meta.name := ns]);
    SameOwners(c, c', n, ns);
    WriteKeepsGuards(c, c', ns);
    SameInventories(c, c');
  }

  lemma WriteKeepsGuards(c: Cluster, c': Cluster, ns: Namespace)
    requires ns.meta.name in c.namespaces && (c.namespaces[ns.meta.name].deleting ==> ns.deleting)
    requires c.namespaces[ns.meta.name].HasFinalizer() ==> ns.HasFinalizer() || Clean(c, ns)
    requires c'.namespaces == c.namespaces[ns.meta.name := ns] && c'.store == c.store
    requires forall m, x :: Owns(c', m, x) <==> Owns(c, m, x)
    requires GuardedByFinalizer(c) && NoOrphans(c) && OwnedScoped(c)
    ensures GuardedByFinalizer(c') && NoOrphans(c') && OwnedScoped(c')
  {
    hide Owns;
  }

  lemma SameInventories(c: Cluster, c': Cluster)
    requires InventoriesGood(c) && c'.bindings == c.bindings
    ensures InventoriesGood(c')
  {
    hide GoodInventory;
  }

  /** Replacing a namespace by one with the same UID changes no ownership. */
  lemma SameOwners(c: Cluster, c': Cluster, n: string, ns: Namespace)
    requires n in c.namespaces && ns.meta.uid == c.namespaces[n].meta.uid
    requires c'.namespaces == c.namespaces[n := ns] && c'.store.applied == c.store.applied
    ensures forall m, x :: Owns(c', m, x) <==> Owns(c, m, x)
  {
  }

  /** Coverage without claims looks at ownership, deletion, records and what was lost. */
  lemma SameCoverage(s: Config, s': Config)
    requires Covered(s) && (s.phase.Idle? || Claimed(s.phase) == {})
    requires s'.c.store == s.c.store && s'.c.namespaces.Keys == s.c.namespaces.Keys
    requires forall m | m in s.c.namespaces ::
               && s.c.namespaces[m].meta.uid == s'.c.namespaces[m].meta.uid
               && (s.c.namespaces[m].deleting ==> s'.c.namespaces[m].deleting)
    requires forall m :: Recorded(s'.c, m) == Recorded(s.c, m)
    ensures Covered(s')
  {
    hide Recorded;
    assert forall m, x :: Owns(s'.c, m, x) <==> Owns(s.c, m, x);
    assert forall m, x | Owns(s'.c, m, x) && Relevant(s'.c.namespaces[m], x) :: Relevant(s.c.namespaces[m], x);
  }

  lemma IdlePhaseOk(setup: Setup, s: Config)
    requires s.phase.Idle?
    ensures PhaseOk(setup, s)
  {
  }

  lemma ReleasingStep(setup: Setup, s: Config)
    requires Inv(setup, s) && s.phase.Releasing?
    ensures Inv(setup, AfterReleasing(s))
  {
    hide ClusterInv, Covered, ObjectsOf;
    var s' := AfterReleasing(s);
    if s'.c != s.c {
      WriteKeepsCluster(s.c, WithoutFinalizer(s.phase.ns));
    }
    SameCoverage(s, s');
  }

  lemma AbortStep(setup: Setup, s: Config)
    requires Inv(setup, s) && !s.phase.Idle?
    ensures Inv(setup, Abort(s))
  {
    hide Canonical, ObjectsOf, Claimed, PhaseOk;
    var c, s' := s.c, Abort(s);
    IdlePhaseOk(setup, s');
    ClaimedOwned(setup, s);
    assert forall m, x :: Owns(s'.c, m, x) <==> Owns(c, m, x);
    assert forall m :: Recorded(s'.c, m) == Recorded(c, m);
  }

  lemma PassKeepsInv(setup: Setup, s: Config, s': Config)
    requires Inv(setup, s) && PassStep(setup, s, s')
    ensures Inv(setup, s')
  {
    hide Inv, AfterPrepare, ApplyFailure, DeleteFailure, Abort;
    hide AfterNamespaceRead, AfterClassRead, AfterGuarded, AfterApplying, AfterDeleting;
    hide AfterRecording, AfterDropping, AfterReleasing;
    if s' == Next(setup, s) {
      match s.phase {
        case NamespaceRead(_) => NamespaceReadStep(setup, s);
        case ClassRead(_, _) => ClassReadStep(setup, s);
        case Guarded(_, _) => GuardedStep(setup, s);
        case Bound(_, _, _) => BoundStep(setup, s, if s.phase.found.Some? then |s.phase.found.value.resources| else 0);
        case Applying(_, _, _, _, _, _) => ApplyingStep(setup, s);
        case Deleting(_, _, _, _, _, _, _) => DeletingStep(setup, s);
        case Recording(_, _, _, _) => RecordingStep(setup, s);
        case Dropping(_) => DroppingStep(setup, s);
        case Releasing(_) => ReleasingStep(setup, s);
      }
    } else if s' == Abort(s) {
      AbortStep(setup, s);
    } else if s.phase.Bound? {
      var broken :| s' == AfterPrepare(setup, s, broken);
      BoundStep(setup, s, broken);
    } else if s.phase.Applying? {
      ApplyFailureStep(setup, s, ApplyFailed);
      ApplyFailureStep(setup, s, ApplyConflict);
    } else {
      DeleteFailureStep(setup, s);
    }
  }

  // ----- The environment -----

  lemma BeginKeepsInv(setup: Setup, s: Config, n: string)
    requires Inv(setup, s) && s.phase.Idle?
    ensures Inv(setup, Begin(s, n))
  {
    hide Desires, Recordable, Canonical, ObjectsOf, Sorted;
  }

  lemma PutClassKeepsInv(setup: Setup, s: Config, cls: NamespaceClass)
    requires Inv(setup, s)
    ensures Inv(setup, s.(c := Do(s.c, PutClass(cls))))
  {
    hide Desires, Recordable, Canonical, ObjectsOf, ObjectOf, Sorted, WellPrepared, Foreign;
    ClassesChange(setup, s, s.(c := Do(s.c, PutClass(cls))));
  }

  lemma DeleteClassKeepsInv(setup: Setup, s: Config, name: string)
    requires Inv(setup, s)
    ensures Inv(setup, s.(c := Do(s.c, DeleteClass(name))))
  {
    hide Desires, Recordable, Canonical, ObjectsOf, ObjectOf, Sorted, WellPrepared, Foreign;
    ClassesChange(setup, s, s.(c := Do(s.c, DeleteClass(name))));
  }

  /** A change of classes touches nothing else. */
  lemma ClassesChange(setup: Setup, s: Config, s': Config)
    requires Inv(setup, s) && s'.phase == s.phase
    requires exists classes :: s'.c == s.c.(classes := classes)
    requires forall k | k in s'.c.classes :: s'.c.classes[k].name == k
    ensures Inv(setup, s')
  {
    hide Desires, Recordable, Canonical, ObjectsOf, ObjectOf, Sorted, WellPrepared, Foreign;
    assert forall m, x :: Owns(s'.c, m, x) <==> Owns(s.c, m, x);
    assert forall m :: Recorded(s'.c, m) == Recorded(s.c, m);
    assert PhaseOk(setup, s') by { PhaseSurvivesClasses(setup, s, s'); }
  }

  lemma PhaseSurvivesClasses(setup: Setup, s: Config, s': Config)
    requires InBounds(s.phase) && PhaseOk(setup, s) && s'.phase == s.phase
    requires exists classes :: s'.c == s.c.(classes := classes)
    ensures PhaseOk(setup, s')
  {
    hide Desires, Recordable, Canonical, ObjectsOf, ObjectOf, Sorted, WellPrepared, Foreign;
    hide Key, Keys, ApplyAll, StaleObjects;
    assert forall m, x :: Owns(s'.c, m, x) <==> Owns(s.c, m, x);
  }

  lemma FreshOwnsNothing(c: Cluster, c': Cluster, ns: Namespace)
    requires UidsOk(c) && ns.meta.uid !in c.uids && ns.meta.name !in c.namespaces
    requires c'.namespaces == c.namespaces[ns.meta.name := ns] && c'.store == c.store
    ensures forall m, x :: Owns(c', m, x) <==> Owns(c, m, x)
    ensures forall m, x | Owns(c, m, x) :: m in c.namespaces && m != ns.meta.name
  {
  }

  lemma CreateNamespaceKeepsInv(setup: Setup, s: Config, ns: Namespace)
    requires Inv(setup, s) && Allowed(s, CreateNamespace(ns))
    ensures Inv(setup, s.(c := Do(s.c, CreateNamespace(ns))))
  {
    hide ClusterInv, Recorded, Owns;
    var c' := Do(s.c, CreateNamespace(ns));
    CreationKeepsCluster(s.c, ns);
    SameRecords(s.c, c');
  }

  lemma CreationKeepsCluster(c: Cluster, ns: Namespace)
    requires ClusterInv(c) && ns.meta.name !in c.namespaces && ns.meta.uid !in c.uids
    ensures var c' := Do(c, CreateNamespace(ns));
            && ClusterInv(c')
            && (forall m, x :: Owns(c', m, x) <==> Owns(c, m, x))
            && (forall m, x | Owns(c, m, x) :: m in c.namespaces && m != ns.meta.name)
  {
    hide GoodInventory;
    FreshOwnsNothing(c, Do(c, CreateNamespace(ns)), ns);
  }

  lemma EditNamespaceKeepsInv(setup: Setup, s: Config, ns: Namespace)
    requires Inv(setup, s) && Allowed(s, EditNamespace(ns))
    ensures Inv(setup, s.(c := Do(s.c, EditNamespace(ns))))
  {
    hide ClusterInv, Covered, ObjectsOf;
    WriteKeepsCluster(s.c, ns);
    SameCoverage(s, s.(c := Do(s.c, EditNamespace(ns))));
  }

  /** A namespace that can be removed owns nothing but what was lost. */
  lemma RemovableIsClean(setup: Setup, s: Config, n: string)
    requires Inv(setup, s) && Allowed(s, RemoveNamespace(n))
    ensures forall id | Owns(s.c, n, id) :: id in s.c.store.pending
    ensures forall m, x :: Owns(Do(s.c, RemoveNamespace(n)), m, x) <==> m != n && Owns(s.c, m, x)
    ensures forall m, x | Owns(s.c, m, x) :: m in s.c.namespaces && x in s.c.store.applied
  {
    hide InventoriesGood, NoOrphans, Covered, ObjectsOf;
    forall id | Owns(s.c, n, id)
      ensures id in s.c.store.pending
    {
      assert id in s.c.store.objects;
      assert Relevant(s.c.namespaces[n], id);
    }
  }

  lemma RemoveNamespaceKeepsInv(setup: Setup, s: Config, n: string)
    requires Inv(setup, s) && Allowed(s, RemoveNamespace(n))
    ensures Inv(setup, s.(c := Do(s.c, RemoveNamespace(n))))
  {
    hide ClusterInv, Recorded, Owns;
    var c' := Do(s.c, RemoveNamespace(n));
    RemovableIsClean(setup, s, n);
    RemovalKeepsCluster(s.c, n);
    assert forall m :: Recorded(c', m) == Recorded(s.c, m) by { SameRecords(s.c, c'); }
  }

  lemma SameRecords(c: Cluster, c': Cluster)
    requires c'.bindings == c.bindings
    ensures forall m :: Recorded(c', m) == Recorded(c, m)
  {
    hide ObjectsOf;
  }

  lemma RemovalKeepsCluster(c: Cluster, n: string)
    requires ClusterInv(c)
    requires var c' := Do(c, RemoveNamespace(n));
             && (forall id | Owns(c, n, id) :: id in c.store.pending)
             && (forall m, x :: Owns(c', m, x) <==> m != n && Owns(c, m, x))
             && (forall m, x | Owns(c, m, x) :: m in c.namespaces && x in c.store.applied)
    ensures ClusterInv(Do(c, RemoveNamespace(n)))
  {
    hide Owns, GoodInventory;
  }

  lemma ObjectsKeepInv(setup: Setup, s: Config, a: Action)
    requires Inv(setup, s) && Allowed(s, a) && (a.PutObject? || a.DeleteObject?)
    ensures Inv(setup, s.(c := Do(s.c, a)))
  {
    hide Desires, Recordable, Canonical, ObjectsOf, Sorted;
    var c, c' := s.c, Do(s.c, a);
    assert forall m :: Recorded(c', m) == Recorded(c, m);
    if a.PutObject? {
      assert forall m, x :: Owns(c', m, x) <==> Owns(c, m, x);
        } else {
      RemoveKeepsCluster(setup, c, {a.id});
      assert forall m, x | Owns(c', m, x) :: Owns(c, m, x);
    }
  }

  lemma EnvKeepsInv(setup: Setup, s: Config, s': Config)
    requires Inv(setup, s) && EnvStep(s, s')
    ensures Inv(setup, s')
  {
    hide Inv;
    var a :| Allowed(s, a) && s' == s.(c := Do(s.c, a));
    match a {
      case CreateNamespace(ns) => CreateNamespaceKeepsInv(setup, s, ns);
      case EditNamespace(ns) => EditNamespaceKeepsInv(setup, s, ns);
      case RemoveNamespace(n) => RemoveNamespaceKeepsInv(setup, s, n);
      case PutClass(cls) => PutClassKeepsInv(setup, s, cls);
      case DeleteClass(name) => DeleteClassKeepsInv(setup, s, name);
      case PutObject(_, _) => ObjectsKeepInv(setup, s, a);
      case DeleteObject(_) => ObjectsKeepInv(setup, s, a);
    }
  }

  /** The invariant is inductive. */
  lemma StepKeepsInv(setup: Setup, s: Config, s': Config)
    requires Inv(setup, s) && Step(setup, s, s')
    ensures Inv(setup, s')
  {
    hide Inv, PassStep, EnvStep;
    if PassStep(setup, s, s') {
      PassKeepsInv(setup, s, s');
    } else if EnvStep(s, s') {
      EnvKeepsInv(setup, s, s');
    } else {
      var n :| s' == Begin(s, n);
      BeginKeepsInv(setup, s, n);
    }
  }

  lemma {:induction false} RunKeepsInv(setup: Setup, run: seq<Config>)
    requires IsRun(setup, run)
    ensures Inv(setup, run[|run| - 1])
    decreases |run|
  {
    hide Inv, Step, Init;
    var n := |run| - 1;
    if n == 0 {
      InitInv(setup, run[0]);
    } else {
      var shorter := run[..n];
      RunKeepsInv(setup, shorter);
      assert Step(setup, run[n - 1], run[n - 1 + 1]);
      StepKeepsInv(setup, run[n - 1], run[n]);
    }
  }

  /** Every state reachable in any run, whatever fails and wherever a pass stops, satisfies the invariant. */
  lemma ReachableInv(setup: Setup, s: Config)
    requires Reachable(setup, s)
    ensures Inv(setup, s)
  {
    var run :| IsRun(setup, run) && run[|run| - 1] == s;
    RunKeepsInv(setup, run);
  }
}
