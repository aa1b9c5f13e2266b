/** Where a pass without failing calls ends, and exactly when that is where it should end. */
module Convergence {
  import opened Wrappers
  import opened ResourceRefs
  import opened Cluster
  import opened Prepare
  import opened Machine
  import opened Invariants
  import opened Steps
  import opened Safety
  import U = Unstructured

  // ----- Conditions a caller can check before the pass -----

  /** Cleaning up r would stop at an unreadable reference or at somebody else's object. */
  predicate Blocks(objects: map<ObjectId, U.Fields>, uid: string, r: ResourceRef, keep: seq<ResourceRef>) {
    && Key(r) !in Keys(keep)
    && (ObjectOf(r).None?
        || (ObjectOf(r).value in objects && !U.IsManagedBy(objects[ObjectOf(r).value], uid)))
  }

  ghost predicate NothingBlocks(store: Store, uid: string, todo: seq<ResourceRef>, keep: seq<ResourceRef>) {
    forall r | r in todo :: !Blocks(store.objects, uid, r, keep)
  }

  /** The namespace asks for this class, and the class exists. */
  ghost predicate Serves(c: Cluster, n: string, cls: NamespaceClass) {
    && n in c.namespaces && Labelled(c.namespaces[n])
    && c.namespaces[n].ClassName() in c.classes && c.classes[c.namespaces[n].ClassName()] == cls
  }

  /** All templates can be prepared, the server accepts all the names, and no stale object blocks. */
  ghost predicate CanSucceed(setup: Setup, c: Cluster, n: string, cls: NamespaceClass, resources: seq<Prepared>) {
    && Serves(c, n, cls)
    && PreparedAll(setup, c.namespaces[n].meta, cls, c.store.objects, |cls.resources|) == Success(resources)
    && AllRecordable(Refs(resources))
    && NothingBlocks(c.store, c.namespaces[n].meta.uid, PreviousInventory(c, n), Sorted(Refs(resources)))
  }

  /** No reference to be dropped names an object that is desired under another key, that is, under another
      API version. */
  ghost predicate NoVersionClash(previous: seq<ResourceRef>, resources: seq<Prepared>) {
    StaleObjects(previous, Sorted(Refs(resources))) !! ObjectsOf(Refs(resources))
  }

  // ----- Running the loops to their ends -----

  lemma {:induction false} DriveApplying(setup: Setup, s: Config)
    requires s.phase.Applying? && InBounds(s.phase)
    requires s.c.store == ApplyAll(s.phase.start, s.phase.ns.meta.uid, s.phase.resources[..s.phase.k])
    requires AllRecordable(Refs(s.phase.resources))
    ensures Drive(setup, s)
            == Drive(setup, Config(s.c.(store := ApplyAll(s.phase.start, s.phase.ns.meta.uid, s.phase.resources)),
                                   s.phase.(k := |s.phase.resources|)))
    decreases |s.phase.resources| - s.phase.k
  {
    hide Recordable, ObjectOf, Drive;
    var k, resources := s.phase.k, s.phase.resources;
    if k == |resources| {
      assert resources[..k] == resources;
    } else {
      RefsMember(resources, resources[k]);
      assert Recordable(resources[k].ref);
      var s' := Next(setup, s);
      assert resources[..k + 1][..k] == resources[..k];
      RecordableObject(resources[k].ref);
      DriveNext(setup, s);
      DriveApplying(setup, s');
    }
  }

  lemma RecordableObject(r: ResourceRef)
    requires Recordable(r)
    ensures ObjectOf(r).Some?
  {
  }

  lemma DriveNext(setup: Setup, s: Config)
    requires InBounds(s.phase) && !s.phase.Idle?
    ensures Drive(setup, s) == Drive(setup, Next(setup, s))
  {
    hide Next;
  }

  lemma DriveIdle(setup: Setup, s: Config)
    requires s.phase.Idle?
    ensures Drive(setup, s) == s
  {
  }

  /** A reference that does not block is passed over or its object removed. */
  lemma LoopAdvances(setup: Setup, s: Config)
    requires s.phase.Deleting? && s.phase.i < |s.phase.todo| && StoreOk(s.c)
    requires s.c.store == s.phase.start.Remove(StaleObjects(s.phase.todo[..s.phase.i], s.phase.keep))
    requires !Blocks(s.phase.start.objects, s.phase.ns.meta.uid, s.phase.todo[s.phase.i], s.phase.keep)
    ensures var removed := StaleObjects(s.phase.todo[..s.phase.i + 1], s.phase.keep);
            Next(setup, s) == Config(s.c.(store := s.phase.start.Remove(removed)), s.phase.(i := s.phase.i + 1))
    ensures StoreOk(Next(setup, s).c)
  {
    hide ObjectOf, Key, Keys, U.IsManagedBy, StaleObjects, DeleteFailure;
    var i, todo, keep, start := s.phase.i, s.phase.todo, s.phase.keep, s.phase.start;
    StaleObjectsSnoc(todo, keep, i);
    var ids := StaleObjects(todo[..i], keep);
    assert ids + {} == ids;
    if Key(todo[i]) !in Keys(keep) {
      var id := ObjectOf(todo[i]).value;
      RemoveMore(start, ids, id);
      if id !in s.c.store.objects {
        RemoveAbsent(s.c.store, id);
      }
    }
  }

  lemma {:induction false} DriveDeleting(setup: Setup, s: Config)
    requires s.phase.Deleting? && InBounds(s.phase)
    requires StoreOk(s.c)
    requires s.c.store == s.phase.start.Remove(StaleObjects(s.phase.todo[..s.phase.i], s.phase.keep))
    requires NothingBlocks(s.phase.start, s.phase.ns.meta.uid, s.phase.todo, s.phase.keep)
    ensures Drive(setup, s)
            == Drive(setup, Config(s.c.(store := s.phase.start.Remove(StaleObjects(s.phase.todo, s.phase.keep))),
                                   s.phase.(i := |s.phase.todo|)))
    decreases |s.phase.todo| - s.phase.i
  {
    hide ObjectOf, Key, Keys, U.IsManagedBy, Drive, StaleObjects;
    var i, todo, keep, start := s.phase.i, s.phase.todo, s.phase.keep, s.phase.start;
    if i == |todo| {
      assert todo[..i] == todo;
    } else {
      assert !Blocks(start.objects, s.phase.ns.meta.uid, todo[i], keep);
      LoopAdvances(setup, s);
      DriveNext(setup, s);
      DriveDeleting(setup, Next(setup, s));
    }
  }

  /** The first reference from index i on that blocks the cleanup; the end of the list when none does. */
  function BlockedAt(objects: map<ObjectId, U.Fields>, uid: string, todo: seq<ResourceRef>, keep: seq<ResourceRef>,
                     i: nat): (j: nat)
    requires i <= |todo|
    ensures i <= j <= |todo|
    ensures j < |todo| ==> Blocks(objects, uid, todo[j], keep)
    ensures forall k | i <= k < j :: !Blocks(objects, uid, todo[k], keep)
    decreases |todo| - i
  {
    if i == |todo| || Blocks(objects, uid, todo[i], keep) then i else BlockedAt(objects, uid, todo, keep, i + 1)
  }

  lemma BlockedExactly(store: Store, uid: string, todo: seq<ResourceRef>, keep: seq<ResourceRef>)
    ensures NothingBlocks(store, uid, todo, keep) <==> BlockedAt(store.objects, uid, todo, keep, 0) == |todo|
  {
    hide Blocks;
    var j := BlockedAt(store.objects, uid, todo, keep, 0);
    if j < |todo| {
      assert todo[j] in todo;
    } else {
      forall r | r in todo
        ensures !Blocks(store.objects, uid, r, keep)
      {
        var k :| 0 <= k < |todo| && todo[k] == r;
      }
    }
  }

  /** With a blocking reference ahead and none behind, the loop deletes up to the first one and ends in its
      failure branch. */
  lemma {:induction false} DriveBlocked(setup: Setup, s: Config)
    requires s.phase.Deleting? && InBounds(s.phase)
    requires StoreOk(s.c)
    requires s.c.store == s.phase.start.Remove(StaleObjects(s.phase.todo[..s.phase.i], s.phase.keep))
    requires forall j | 0 <= j < s.phase.i ::
               !Blocks(s.phase.start.objects, s.phase.ns.meta.uid, s.phase.todo[j], s.phase.keep)
    requires BlockedAt(s.phase.start.objects, s.phase.ns.meta.uid, s.phase.todo, s.phase.keep, s.phase.i)
             < |s.phase.todo|
    ensures var j := BlockedAt(s.phase.start.objects, s.phase.ns.meta.uid, s.phase.todo, s.phase.keep, s.phase.i);
            var stopped := s.phase.start.Remove(StaleObjects(s.phase.todo[..j], s.phase.keep));
            Drive(setup, s)
            == Config(s.c.(bindings := s.c.bindings[s.phase.ns.meta.name := DeleteFailure(s).phase.binding],
                           store := stopped),
                      Idle)
    decreases |s.phase.todo| - s.phase.i
  {
    hide ObjectOf, Key, Keys, U.IsManagedBy, Drive, StaleObjects, Merge, Sorted;
    var i, todo, keep, start := s.phase.i, s.phase.todo, s.phase.keep, s.phase.start;
    if Blocks(start.objects, s.phase.ns.meta.uid, todo[i], keep) {
      FirstBlockStands(start, s.phase.ns.meta.uid, todo, keep, i);
      assert Next(setup, s) == DeleteFailure(s);
      DriveNext(setup, s);
      DriveRecording(setup, DeleteFailure(s));
    } else {
      LoopAdvances(setup, s);
      DriveNext(setup, s);
      DriveBlocked(setup, Next(setup, s));
    }
  }

  lemma FirstBlockStands(start: Store, uid: string, todo: seq<ResourceRef>, keep: seq<ResourceRef>, i: nat)
    requires i < |todo| && Blocks(start.objects, uid, todo[i], keep)
    requires forall j | 0 <= j < i :: !Blocks(start.objects, uid, todo[j], keep)
    ensures Blocks(start.Remove(StaleObjects(todo[..i], keep)).objects, uid, todo[i], keep)
  {
    hide ObjectOf, Key, Keys, U.IsManagedBy;
    if ObjectOf(todo[i]).Some? {
      var id := ObjectOf(todo[i]).value;
      forall r | r in todo[..i] && Key(r) !in Keys(keep) && ObjectOf(r).Some?
        ensures ObjectOf(r).value != id
      {
        var j :| 0 <= j < i && todo[j] == r;
      }
    }
  }

  lemma DriveRecording(setup: Setup, s: Config)
    requires s.phase.Recording?
    ensures Drive(setup, s) == AfterRecording(s)
  {
    DriveNext(setup, s);
  }

  // ----- The pass that serves a class -----

  function Guarding(ns: Namespace): Namespace {
    if ns.HasFinalizer() then ns else WithFinalizer(ns)
  }

  /** The cluster after a successful pass, as a function of the cluster before. */
  function SuccessState(c: Cluster, n: string, cls: NamespaceClass, resources: seq<Prepared>): Cluster
    requires n in c.namespaces
  {
    var ns, keep := Guarding(c.namespaces[n]), Sorted(Refs(resources));
    c.(namespaces := c.namespaces[n := ns],
       bindings := c.bindings[n := Succeeded(BindingFor(c, ns), ns.meta.uid, cls, keep)],
       store := ApplyAll(c.store, ns.meta.uid, resources).Remove(StaleObjects(PreviousInventory(c, n), keep)))
  }

  /** The pass as far as the binding, which succeeds whatever the templates are. */
  function BoundState(c: Cluster, n: string, cls: NamespaceClass): Config
    requires n in c.namespaces
  {
    var ns := Guarding(c.namespaces[n]);
    var b := BindingFor(c, ns);
    Config(c.(namespaces := c.namespaces[n := ns], bindings := c.bindings[n := b]), Bound(ns, Some(cls), b))
  }

  lemma DriveToBound(setup: Setup, c: Cluster, n: string, cls: NamespaceClass)
    requires Inv(setup, Config(c, Idle)) && Serves(c, n, cls)
    ensures FaultFreePass(setup, c, n) == Drive(setup, BoundState(c, n, cls)).c
    ensures Inv(setup, BoundState(c, n, cls))
  {
    hide Drive, ClusterInv, BindingFor, Covered, PreparedAll;
    var s0 := Begin(Config(c, Idle), n);
    NamedOf(setup, Config(c, Idle), n);
    BeginKeepsInv(setup, Config(c, Idle), n);
    var s1 := Next(setup, s0);
    assert s1.phase == ClassRead(c.namespaces[n], Some(cls));
    NextKeepsInv(setup, s0);
    var s2 := Next(setup, s1);
    NextKeepsInv(setup, s1);
    var s3 := Next(setup, s2);
    NextKeepsInv(setup, s2);
    DriveNext(setup, s0);
    DriveNext(setup, s1);
    DriveNext(setup, s2);
    BindingForFrame(c, s2.c, Guarding(c.namespaces[n]));
    assert c.namespaces[n := c.namespaces[n]] == c.namespaces;
    assert s3 == BoundState(c, n, cls);
  }

  lemma BindingForFrame(c: Cluster, c': Cluster, ns: Namespace)
    requires c'.bindings == c.bindings
    ensures BindingFor(c', ns) == BindingFor(c, ns)
  {
  }

  lemma NextKeepsInv(setup: Setup, s: Config)
    requires Inv(setup, s) && !s.phase.Idle? && InBounds(s.phase)
    ensures Inv(setup, Next(setup, s))
  {
    hide Inv;
    PassKeepsInv(setup, s, Next(setup, s));
  }

  lemma BoundInventory(c: Cluster, n: string, cls: NamespaceClass)
    requires n in c.namespaces && c.namespaces[n].meta.name == n
    ensures BoundState(c, n, cls).phase
            == Bound(Guarding(c.namespaces[n]), Some(cls), BindingFor(c, Guarding(c.namespaces[n])))
    ensures BoundState(c, n, cls).phase.binding.status.inventory == PreviousInventory(c, n)
    ensures BoundState(c, n, cls).c.store == c.store
    ensures BoundState(c, n, cls).phase.ns.meta == c.namespaces[n].meta
  {
  }

  /** The pass from the start of the apply loop. */
  function LoopState(c: Cluster, n: string, cls: NamespaceClass, resources: seq<Prepared>): Config
    requires n in c.namespaces
  {
    var s := BoundState(c, n, cls);
    s.(phase := Applying(s.phase.ns, s.phase.binding, cls, resources, 0, c.store))
  }

  /** The pass from the start of the delete loop. */
  function DeleteState(c: Cluster, n: string, cls: NamespaceClass, resources: seq<Prepared>): Config
    requires n in c.namespaces
  {
    var s := BoundState(c, n, cls);
    var applied := ApplyAll(c.store, s.phase.ns.meta.uid, resources);
    Config(s.c.(store := applied),
           Deleting(s.phase.ns, s.phase.binding, Stale(cls, resources, c.store), s.phase.binding.status.inventory,
                    Sorted(Refs(resources)), 0, applied))
  }

  lemma DriveToDeleting(setup: Setup, c: Cluster, n: string, cls: NamespaceClass, resources: seq<Prepared>)
    requires Inv(setup, Config(c, Idle)) && Serves(c, n, cls)
    requires PreparedAll(setup, c.namespaces[n].meta, cls, c.store.objects, |cls.resources|) == Success(resources)
    requires AllRecordable(Refs(resources))
    ensures FaultFreePass(setup, c, n) == Drive(setup, DeleteState(c, n, cls, resources)).c
  {
    hide Drive, ClusterInv, BindingFor, Covered, PreparedAll, Inv, ObjectsOf, Recordable, Sorted;
    DriveToBound(setup, c, n, cls);
    NamedOf(setup, Config(c, Idle), n);
    BoundInventory(c, n, cls);
    var s := BoundState(c, n, cls);
    var loop := LoopState(c, n, cls, resources);
    DriveNext(setup, s);
    assert Next(setup, s) == loop;
    assert resources[..0] == [];
    DriveApplying(setup, loop);
    var done := Config(loop.c.(store := ApplyAll(c.store, s.phase.ns.meta.uid, resources)),
                       loop.phase.(k := |resources|));
    DriveNext(setup, done);
    assert Next(setup, done) == DeleteState(c, n, cls, resources);
  }

  /** Blocking is the same before and after the desired objects have been applied. */
  lemma ApplyingUnblocksNothing(setup: Setup, meta: Meta, store: Store, resources: seq<Prepared>,
                                r: ResourceRef, keep: seq<ResourceRef>)
    requires forall p | p in resources ::
               U.IsManagedBy(p.content, meta.uid) && !Foreign(store.objects, p.ref, meta.uid)
    ensures Blocks(ApplyAll(store, meta.uid, resources).objects, meta.uid, r, keep)
            <==> Blocks(store.objects, meta.uid, r, keep)
  {
    hide U.IsManagedBy, ObjectOf, Key, Keys, ApplyAll;
    if ObjectOf(r).Some? {
      var id := ObjectOf(r).value;
      ApplyAllAdds(store, meta.uid, resources);
      if id in ObjectsOf(Refs(resources)) {
        ApplyAllManaged(store, meta.uid, resources, id);
        var q :| q in Refs(resources) && ObjectOf(q).Some? && ObjectOf(q).value == id;
        var p := RefsMemberInverse(resources, q);
      }
    }
  }

  lemma {:induction false} ApplyAllManaged(store: Store, uid: string, resources: seq<Prepared>, id: ObjectId)
    requires forall p | p in resources :: U.IsManagedBy(p.content, uid)
    requires id in ObjectsOf(Refs(resources))
    ensures id in ApplyAll(store, uid, resources).objects
    ensures U.IsManagedBy(ApplyAll(store, uid, resources).objects[id], uid)
  {
    hide U.IsManagedBy, ObjectOf;
    var n := |resources| - 1;
    assert Refs(resources) == Refs(resources[..n]) + [resources[n].ref];
    assert resources[n] in resources;
    if ObjectOf(resources[n].ref) != Some(id) {
      ApplyAllManaged(store, uid, resources[..n], id);
    }
  }

  lemma NothingBlocksAfterApplying(setup: Setup, c: Cluster, n: string, cls: NamespaceClass, resources: seq<Prepared>,
                                   keep: seq<ResourceRef>)
    requires n in c.namespaces
    requires PreparedAll(setup, c.namespaces[n].meta, cls, c.store.objects, |cls.resources|) == Success(resources)
    ensures var meta, previous := c.namespaces[n].meta, PreviousInventory(c, n);
            NothingBlocks(ApplyAll(c.store, meta.uid, resources), meta.uid, previous, keep)
            <==> NothingBlocks(c.store, meta.uid, previous, keep)
  {
    hide PreparedAll, Blocks, U.IsManagedBy, WellPrepared, Foreign, Shaped, ApplyAll, Key;
    var meta := c.namespaces[n].meta;
    PrepareGate(setup, meta, cls, c.store.objects, |cls.resources|);
    forall p | p in resources
      ensures U.IsManagedBy(p.content, meta.uid) && !Foreign(c.store.objects, p.ref, meta.uid)
    {
      WellPreparedScope(setup, meta, p);
    }
    forall r | r in PreviousInventory(c, n)
      ensures Blocks(ApplyAll(c.store, meta.uid, resources).objects, meta.uid, r, keep)
              <==> Blocks(c.store.objects, meta.uid, r, keep)
    {
      ApplyingUnblocksNothing(setup, meta, c.store, resources, r, keep);
    }
  }

  /** A pass whose conditions hold ends in the success state, whatever the cluster has been through. */
  lemma SuccessfulPass(setup: Setup, c: Cluster, n: string, cls: NamespaceClass, resources: seq<Prepared>)
    requires Inv(setup, Config(c, Idle)) && CanSucceed(setup, c, n, cls, resources)
    ensures FaultFreePass(setup, c, n) == SuccessState(c, n, cls, resources)
  {
    hide Drive, ClusterInv, BindingFor, Covered, PreparedAll, ObjectsOf, Recordable, Sorted, NothingBlocks;
    hide StaleObjects, ApplyAll;
    NamedOf(setup, Config(c, Idle), n);
    BoundInventory(c, n, cls);
    DriveToDeleting(setup, c, n, cls, resources);
    NothingBlocksAfterApplying(setup, c, n, cls, resources, Sorted(Refs(resources)));
    var s := DeleteState(c, n, cls, resources);
    RemoveNothing(s.c.store, s.phase.keep, s.phase.todo);
    ApplyAllStoreOk(setup, c, s.phase.ns.meta.uid, resources);
    DriveDeleting(setup, s);
    var done := Config(s.c.(store := s.phase.start.Remove(StaleObjects(s.phase.todo, s.phase.keep))),
                       s.phase.(i := |s.phase.todo|));
    DriveNext(setup, done);
    DriveRecording(setup, Next(setup, done));
  }

  lemma {:induction false} ApplyAllKeepsStoreOk(c: Cluster, uid: string, resources: seq<Prepared>)
    requires StoreOk(c)
    ensures StoreOk(c.(store := ApplyAll(c.store, uid, resources)))
  {
    hide ObjectOf;
    if resources != [] {
      ApplyAllKeepsStoreOk(c, uid, resources[..|resources| - 1]);
    }
  }

  lemma ApplyAllStoreOk(setup: Setup, c: Cluster, uid: string, resources: seq<Prepared>)
    requires Inv(setup, Config(c, Idle))
    ensures StoreOk(c.(store := ApplyAll(c.store, uid, resources)))
  {
    hide Covered, PhaseOk;
    ApplyAllKeepsStoreOk(c, uid, resources);
  }

  // ----- Success exactly under its conditions -----

  /** The first resource from index k on whose name the server refuses; the end of the list when none. */
  function RefusedAt(resources: seq<Prepared>, k: nat): (j: nat)
    requires k <= |resources|
    ensures k <= j <= |resources|
    ensures j < |resources| ==> !Recordable(resources[j].ref)
    ensures forall i | k <= i < j :: Recordable(resources[i].ref)
    decreases |resources| - k
  {
    if k == |resources| || !Recordable(resources[k].ref) then k else RefusedAt(resources, k + 1)
  }

  lemma RefusedExactly(resources: seq<Prepared>)
    ensures AllRecordable(Refs(resources)) <==> RefusedAt(resources, 0) == |resources|
  {
    hide Recordable;
    var j := RefusedAt(resources, 0);
    if j < |resources| {
      RefsMember(resources, resources[j]);
    } else {
      forall r | r in Refs(resources)
        ensures Recordable(r)
      {
        var i :| 0 <= i < |resources| && Refs(resources)[i] == r;
      }
    }
  }

  lemma {:induction false} DriveRefused(setup: Setup, s: Config)
    requires s.phase.Applying? && InBounds(s.phase)
    requires s.c.store == ApplyAll(s.phase.start, s.phase.ns.meta.uid, s.phase.resources[..s.phase.k])
    requires RefusedAt(s.phase.resources, s.phase.k) < |s.phase.resources|
    ensures var j := RefusedAt(s.phase.resources, s.phase.k);
            var stopped := ApplyAll(s.phase.start, s.phase.ns.meta.uid, s.phase.resources[..j]);
            var b' := ApplyFailure(s.(phase := s.phase.(k := j)), ApplyFailed).phase.binding;
            Drive(setup, s)
            == Config(s.c.(bindings := s.c.bindings[s.phase.ns.meta.name := b'], store := stopped), Idle)
    decreases |s.phase.resources| - s.phase.k
  {
    hide SlashFreeParts, ObjectOf, Drive, Merge;
    var k, resources := s.phase.k, s.phase.resources;
    DriveNext(setup, s);
    if Recordable(resources[k].ref) {
      assert resources[..k + 1][..k] == resources[..k];
      DriveRefused(setup, Next(setup, s));
    } else {
      DriveRecording(setup, Next(setup, s));
    }
  }

  /** What a pass that serves a class achieves and records, written down without the pass. */
  datatype Outcome = Outcome(reason: Reason, inventory: seq<ResourceRef>, store: Store)

  function ServedOutcome(setup: Setup, c: Cluster, n: string, cls: NamespaceClass): Outcome
    requires n in c.namespaces
  {
    var meta, previous := c.namespaces[n].meta, PreviousInventory(c, n);
    match PreparedAll(setup, meta, cls, c.store.objects, |cls.resources|)
    case Failure(reason) => Outcome(reason, previous, c.store)
    case Success(resources) =>
      var k := RefusedAt(resources, 0);
      if k < |resources| then
        Outcome(ApplyFailed, Merge(previous, Refs(resources[..k])), ApplyAll(c.store, meta.uid, resources[..k]))
      else
        var keep, applied := Sorted(Refs(resources)), ApplyAll(c.store, meta.uid, resources);
        var i := BlockedAt(applied.objects, meta.uid, previous, keep, 0);
        if i < |previous| then
          Outcome(DeleteFailed, Merge(previous, keep), applied.Remove(StaleObjects(previous[..i], keep)))
        else
          Outcome(BindingRecorded, keep, applied.Remove(StaleObjects(previous, keep)))
  }

  function WithOutcome(c: Cluster, n: string, cls: NamespaceClass, o: Outcome): Cluster
    requires n in c.namespaces
  {
    var ns := Guarding(c.namespaces[n]);
    var b := BindingFor(c, ns);
    var condition := Condition(o.reason == BindingRecorded, o.reason, b.generation);
    c.(namespaces := c.namespaces[n := ns],
       bindings := c.bindings[n := b.(status := Status(ns.meta.uid, cls.generation, o.inventory, Some(condition)))],
       store := o.store)
  }

  /** Recording an outcome on top of the bound state. */
  lemma RecordedOutcome(c: Cluster, n: string, cls: NamespaceClass, o: Outcome, b: Binding)
    requires n in c.namespaces
    requires var bound := BoundState(c, n, cls).phase.binding;
             b == bound.(status := Status(c.namespaces[n].meta.uid, cls.generation, o.inventory,
                                          Some(Condition(o.reason == BindingRecorded, o.reason, bound.generation))))
    ensures var s := BoundState(c, n, cls);
            s.c.(bindings := s.c.bindings[n := b], store := o.store) == WithOutcome(c, n, cls, o)
  {
    hide BindingFor;
    var ns := Guarding(c.namespaces[n]);
    assert c.bindings[n := BindingFor(c, ns)][n := b] == c.bindings[n := b];
  }

  lemma ClosedGateOutcome(setup: Setup, c: Cluster, n: string, cls: NamespaceClass)
    requires Inv(setup, Config(c, Idle)) && Serves(c, n, cls)
    requires PreparedAll(setup, c.namespaces[n].meta, cls, c.store.objects, |cls.resources|).Failure?
    ensures FaultFreePass(setup, c, n) == WithOutcome(c, n, cls, ServedOutcome(setup, c, n, cls))
  {
    hide Drive, ClusterInv, BindingFor, Covered, PreparedAll, Inv, Merge, Sorted, StaleObjects, ApplyAll;
    DriveToBound(setup, c, n, cls);
    NamedOf(setup, Config(c, Idle), n);
    BoundInventory(c, n, cls);
    PreviousCanonical(setup, c, n);
    MergeIdempotent(PreviousInventory(c, n));
    NeverRecorded(setup, c.namespaces[n].meta, cls, c.store.objects, |cls.resources|);
    var s := BoundState(c, n, cls);
    DriveNext(setup, s);
    DriveRecording(setup, Next(setup, s));
  }

  lemma PreviousCanonical(setup: Setup, c: Cluster, n: string)
    requires Inv(setup, Config(c, Idle))
    ensures Canonical(PreviousInventory(c, n))
  {
    hide Covered, PhaseOk;
  }

  /** Preparing never fails with the reason that stands for success. */
  lemma NeverRecorded(setup: Setup, meta: Meta, cls: NamespaceClass, objects: map<ObjectId, U.Fields>, broken: nat)
    ensures PreparedAll(setup, meta, cls, objects, broken) != Failure(BindingRecorded)
  {
    hide Shaped, Foreign, Repeats;
    PrepareGate(setup, meta, cls, objects, broken);
    forall i | 0 <= i < |cls.resources|
      ensures Problem(setup, meta, cls, objects, broken, i) != Some(BindingRecorded)
    {
      ShapedReasons(setup, meta, cls.name, cls.resources[i]);
    }
  }

  lemma ShapedReasons(setup: Setup, meta: Meta, className: string, raw: RawResource)
    ensures Shaped(setup, meta, className, raw) != Failure(BindingRecorded)
  {
    hide U.RenderedTree, TemplateValues, U.Managed, GvkOf;
  }

  lemma RefusedOutcome(setup: Setup, c: Cluster, n: string, cls: NamespaceClass, resources: seq<Prepared>)
    requires Inv(setup, Config(c, Idle)) && Serves(c, n, cls)
    requires PreparedAll(setup, c.namespaces[n].meta, cls, c.store.objects, |cls.resources|) == Success(resources)
    requires RefusedAt(resources, 0) < |resources|
    ensures FaultFreePass(setup, c, n) == WithOutcome(c, n, cls, ServedOutcome(setup, c, n, cls))
  {
    hide Drive, ClusterInv, BindingFor, Covered, PreparedAll, Inv, Merge, Recordable, RefusedAt;
    hide WithOutcome, Sorted, StaleObjects, BlockedAt;
    DriveToBound(setup, c, n, cls);
    NamedOf(setup, Config(c, Idle), n);
    BoundInventory(c, n, cls);
    var s := BoundState(c, n, cls);
    DriveNext(setup, s);
    assert Next(setup, s) == LoopState(c, n, cls, resources);
    assert resources[..0] == [];
    DriveRefused(setup, LoopState(c, n, cls, resources));
    var k, loop := RefusedAt(resources, 0), LoopState(c, n, cls, resources);
    RecordedOutcome(c, n, cls, ServedOutcome(setup, c, n, cls),
                    ApplyFailure(loop.(phase := loop.phase.(k := k)), ApplyFailed).phase.binding);
  }

  lemma BlockedOutcome(setup: Setup, c: Cluster, n: string, cls: NamespaceClass, resources: seq<Prepared>)
    requires Inv(setup, Config(c, Idle)) && Serves(c, n, cls)
    requires PreparedAll(setup, c.namespaces[n].meta, cls, c.store.objects, |cls.resources|) == Success(resources)
    requires RefusedAt(resources, 0) == |resources|
    requires var uid, previous, keep := c.namespaces[n].meta.uid, PreviousInventory(c, n), Sorted(Refs(resources));
             BlockedAt(ApplyAll(c.store, uid, resources).objects, uid, previous, keep, 0)
             < |PreviousInventory(c, n)|
    ensures FaultFreePass(setup, c, n) == WithOutcome(c, n, cls, ServedOutcome(setup, c, n, cls))
  {
    hide Drive, ClusterInv, BindingFor, Covered, PreparedAll, ObjectsOf, Recordable, Sorted, BlockedAt, Merge;
    hide RefusedAt;
    hide StaleObjects, ApplyAll, WithOutcome, BoundState, Guarding, Inv, Key, Keys, ObjectOf;
    NamedOf(setup, Config(c, Idle), n);
    BoundInventory(c, n, cls);
    RefusedExactly(resources);
    DriveToDeleting(setup, c, n, cls, resources);
    var s := DeleteState(c, n, cls, resources);
    RemoveNothing(s.c.store, s.phase.keep, s.phase.todo);
    ApplyAllStoreOk(setup, c, s.phase.ns.meta.uid, resources);
    DriveBlocked(setup, s);
    SortedTwice(resources);
    RecordedOutcome(c, n, cls, ServedOutcome(setup, c, n, cls), DeleteFailure(s).phase.binding);
  }

  lemma SortedTwice(resources: seq<Prepared>)
    ensures Sorted(Sorted(Refs(resources))) == Sorted(Refs(resources))
  {
    hide Sorted;
    SortedIsCanonical(Refs(resources));
    MergeIdempotent(Sorted(Refs(resources)));
  }

  lemma SuccessOutcome(setup: Setup, c: Cluster, n: string, cls: NamespaceClass, resources: seq<Prepared>)
    requires Inv(setup, Config(c, Idle)) && Serves(c, n, cls)
    requires PreparedAll(setup, c.namespaces[n].meta, cls, c.store.objects, |cls.resources|) == Success(resources)
    requires RefusedAt(resources, 0) == |resources|
    requires var uid, previous, keep := c.namespaces[n].meta.uid, PreviousInventory(c, n), Sorted(Refs(resources));
             BlockedAt(ApplyAll(c.store, uid, resources).objects, uid, previous, keep, 0)
             == |PreviousInventory(c, n)|
    ensures FaultFreePass(setup, c, n) == WithOutcome(c, n, cls, ServedOutcome(setup, c, n, cls))
    ensures CanSucceed(setup, c, n, cls, resources)
  {
    hide FaultFreePass, Inv, PreparedAll, ObjectsOf, Recordable, Sorted, BlockedAt, Merge, RefusedAt, NothingBlocks;
    hide StaleObjects, ApplyAll, BindingFor;
    RefusedExactly(resources);
    BlockedExactly(ApplyAll(c.store, c.namespaces[n].meta.uid, resources), c.namespaces[n].meta.uid,
                   PreviousInventory(c, n), Sorted(Refs(resources)));
    NothingBlocksAfterApplying(setup, c, n, cls, resources, Sorted(Refs(resources)));
    SuccessfulPass(setup, c, n, cls, resources);
  }

  /** A pass without failing calls for a class that exists does exactly this, whatever the cluster has been
      through: the first obstacle in the order prepare, apply, delete decides the reason, the recorded
      inventory and what has happened to the store; without one it reports success. */
  lemma PassOutcome(setup: Setup, c: Cluster, n: string, cls: NamespaceClass)
    requires Inv(setup, Config(c, Idle)) && Serves(c, n, cls)
    ensures FaultFreePass(setup, c, n) == WithOutcome(c, n, cls, ServedOutcome(setup, c, n, cls))
    ensures ServedOutcome(setup, c, n, cls).reason == BindingRecorded
            <==> exists resources :: CanSucceed(setup, c, n, cls, resources)
  {
    hide FaultFreePass, Inv, PreparedAll, Sorted, WithOutcome, RefusedAt, BlockedAt, ApplyAll, NothingBlocks;
    hide Merge, AllRecordable;
    var meta, previous := c.namespaces[n].meta, PreviousInventory(c, n);
    match PreparedAll(setup, meta, cls, c.store.objects, |cls.resources|) {
      case Failure(_) =>
        ClosedGateOutcome(setup, c, n, cls);
        NeverRecorded(setup, meta, cls, c.store.objects, |cls.resources|);
      case Success(resources) =>
        var applied, keep := ApplyAll(c.store, meta.uid, resources), Sorted(Refs(resources));
        RefusedExactly(resources);
        BlockedExactly(applied, meta.uid, previous, keep);
        NothingBlocksAfterApplying(setup, c, n, cls, resources, keep);
        if RefusedAt(resources, 0) < |resources| {
          RefusedOutcome(setup, c, n, cls, resources);
        } else if BlockedAt(applied.objects, meta.uid, previous, keep, 0) < |previous| {
          BlockedOutcome(setup, c, n, cls, resources);
        } else {
          SuccessOutcome(setup, c, n, cls, resources);
        }
    }
  }

  /** A pass without failing calls reports success exactly when every template can be prepared, the server
      accepts all the names, and no stale object is unreadable or somebody else's. */
  lemma ReadyExactly(setup: Setup, c: Cluster, n: string, cls: NamespaceClass)
    requires Inv(setup, Config(c, Idle)) && Serves(c, n, cls)
    ensures var c' := FaultFreePass(setup, c, n);
            && n in c'.bindings
            && (ReportsReady(c'.bindings[n]) <==> exists resources :: CanSucceed(setup, c, n, cls, resources))
  {
    hide FaultFreePass, Inv, CanSucceed, ServedOutcome;
    PassOutcome(setup, c, n, cls);
  }

  // ----- Where success leaves the cluster -----

  lemma SuccessKeepsInv(setup: Setup, c: Cluster, n: string, cls: NamespaceClass, resources: seq<Prepared>)
    requires Inv(setup, Config(c, Idle)) && CanSucceed(setup, c, n, cls, resources)
    ensures Inv(setup, Config(SuccessState(c, n, cls, resources), Idle))
  {
    hide Inv, CanSucceed;
    CanSucceedServes(setup, c, n, cls, resources);
    SuccessfulPass(setup, c, n, cls, resources);
    PassEndsInInv(setup, c, n);
  }

  lemma CanSucceedServes(setup: Setup, c: Cluster, n: string, cls: NamespaceClass, resources: seq<Prepared>)
    requires CanSucceed(setup, c, n, cls, resources)
    ensures Serves(c, n, cls) && AllRecordable(Refs(resources))
    ensures Desires(setup, c.namespaces[n].meta, cls, resources)
  {
    hide PreparedAll;
    PreparedIsDesired(setup, c.namespaces[n].meta, cls, c.store.objects, |cls.resources|);
  }

  lemma {:induction false} DriveKeepsInv(setup: Setup, s: Config)
    requires Inv(setup, s) && InBounds(s.phase)
    ensures Inv(setup, Drive(setup, s))
    decreases Rank(s.phase), LeftInLoop(s.phase)
  {
    hide Inv, Next;
    if !s.phase.Idle? {
      NextKeepsInv(setup, s);
      NextDescends(setup, s);
      DriveKeepsInv(setup, Next(setup, s));
    }
  }

  lemma PassEndsInInv(setup: Setup, c: Cluster, n: string)
    requires Inv(setup, Config(c, Idle))
    ensures Inv(setup, Config(FaultFreePass(setup, c, n), Idle))
  {
    hide Inv;
    BeginKeepsInv(setup, Config(c, Idle), n);
    assert InBounds(Begin(Config(c, Idle), n).phase);
    DriveKeepsInv(setup, Begin(Config(c, Idle), n));
  }

  lemma NextDescends(setup: Setup, s: Config)
    requires InBounds(s.phase) && !s.phase.Idle?
    ensures Rank(Next(setup, s).phase) < Rank(s.phase)
            || (Rank(Next(setup, s).phase) == Rank(s.phase)
                && LeftInLoop(Next(setup, s).phase) < LeftInLoop(s.phase))
  {
    hide PreparedAll, Merge, Sorted, ClusterScoped, BindingFor, U.IsManagedBy, Key, Keys, Recordable;
  }

  /** The objects applied for the namespace. */
  ghost predicate OwnsExactly(c: Cluster, n: string, ids: set<ObjectId>) {
    forall id :: Owns(c, n, id) <==> id in ids
  }

  lemma SuccessOwners(setup: Setup, c: Cluster, n: string, cls: NamespaceClass, resources: seq<Prepared>, id: ObjectId)
    requires Inv(setup, Config(c, Idle)) && CanSucceed(setup, c, n, cls, resources)
    ensures var c' := SuccessState(c, n, cls, resources);
            var gone := StaleObjects(PreviousInventory(c, n), Sorted(Refs(resources)));
            && (Owns(c', n, id) <==> (Owns(c, n, id) || id in ObjectsOf(Refs(resources))) && id !in gone)
            && (id in c'.store.pending <==>
                id in c.store.pending && id !in ObjectsOf(Refs(resources)) && id !in gone)
            && Recorded(c', n) == ObjectsOf(Refs(resources))
  {
    hide Inv, PreparedAll, ObjectOf, Key, Keys, Sorted, NothingBlocks, Canonical, StaleObjects, Recordable, ObjectsOf;
    var uid := c.namespaces[n].meta.uid;
    NamedOf(setup, Config(c, Idle), n);
    ApplyAllOwners(c.store, uid, resources, id);
    SortedMembers(Refs(resources));
  }

  lemma {:induction false} ApplyAllOwners(store: Store, uid: string, resources: seq<Prepared>, id: ObjectId)
    ensures var after := ApplyAll(store, uid, resources);
            && (id in after.applied <==> id in store.applied || id in ObjectsOf(Refs(resources)))
            && (id in ObjectsOf(Refs(resources)) ==> after.applied[id] == uid && id !in after.pending)
            && (id !in ObjectsOf(Refs(resources)) && id in store.applied ==> after.applied[id] == store.applied[id])
            && (id !in ObjectsOf(Refs(resources)) ==> (id in after.pending <==> id in store.pending))
  {
    hide ObjectOf;
    if resources != [] {
      var m := |resources| - 1;
      ApplyAllOwners(store, uid, resources[..m], id);
      assert Refs(resources) == Refs(resources[..m]) + [resources[m].ref];
      if ObjectOf(resources[m].ref).Some? {
        ObjectsOfSnoc(Refs(resources[..m]), resources[m].ref);
      } else {
        ObjectsOfSkip(Refs(resources[..m]), resources[m].ref);
      }
    }
  }

  /** Convergence: after a successful pass the inventory is the sorted desired set, and from a covered
      cluster the objects applied for the namespace are exactly the desired ones if and only if no reference
      being dropped names a desired object under another API version. */
  lemma Converges(setup: Setup, c: Cluster, n: string, cls: NamespaceClass, resources: seq<Prepared>)
    requires Inv(setup, Config(c, Idle)) && CanSucceed(setup, c, n, cls, resources)
    requires FullyCovered(c, n)
    ensures var c' := FaultFreePass(setup, c, n);
            && n in c'.bindings && c'.bindings[n].status.inventory == Sorted(Refs(resources))
            && ReportsReady(c'.bindings[n])
            && FullyCovered(c', n)
            && (OwnsExactly(c', n, ObjectsOf(Refs(resources)))
                <==> NoVersionClash(PreviousInventory(c, n), resources))
  {
    hide FaultFreePass, Inv, PreparedAll, AllRecordable, NothingBlocks, Sorted, ObjectsOf, StaleObjects;
    SuccessfulPass(setup, c, n, cls, resources);
    NamedOf(setup, Config(c, Idle), n);
    var c' := SuccessState(c, n, cls, resources);
    forall id
      ensures Owns(c', n, id) ==> id in ObjectsOf(Refs(resources))
      ensures id in ObjectsOf(Refs(resources))
              ==> (Owns(c', n, id) <==> id !in StaleObjects(PreviousInventory(c, n), Sorted(Refs(resources))))
      ensures Recorded(c', n) == ObjectsOf(Refs(resources))
    {
      SuccessOwners(setup, c, n, cls, resources, id);
      if Owns(c, n, id) {
        DroppedOrDesired(setup, c, n, cls, resources, id);
      }
    }
  }

  /** A recorded object is either dropped or desired. */
  lemma DroppedOrDesired(setup: Setup, c: Cluster, n: string, cls: NamespaceClass, resources: seq<Prepared>,
                         id: ObjectId)
    requires Inv(setup, Config(c, Idle)) && CanSucceed(setup, c, n, cls, resources)
    requires id in Recorded(c, n)
    ensures id in StaleObjects(PreviousInventory(c, n), Sorted(Refs(resources))) || id in ObjectsOf(Refs(resources))
  {
    hide PreparedAll, NothingBlocks, ObjectOf, Key, Canonical, Sorted, Covered, PhaseOk;
    var r :| r in c.bindings[n].status.inventory && ObjectOf(r).Some? && ObjectOf(r).value == id;
    SortedMembers(Refs(resources));
    if Key(r) in Keys(Sorted(Refs(resources))) {
      var q :| q in Sorted(Refs(resources)) && Key(q) == Key(r);
      KeyInjective(r, q);
    }
  }

  /** The hypothesis in the domain's own terms: every object the two lists name is named at one version. */
  ghost predicate OneVersionEach(previous: seq<ResourceRef>, resources: seq<Prepared>) {
    forall r, q | r in previous && q in Refs(resources) && ObjectOf(r) == ObjectOf(q) && ObjectOf(r).Some? :: r == q
  }

  lemma OneVersionNoClash(previous: seq<ResourceRef>, resources: seq<Prepared>)
    requires OneVersionEach(previous, resources)
    ensures NoVersionClash(previous, resources)
  {
    hide Key, ObjectOf, Sorted;
    var keep := Sorted(Refs(resources));
    SortedIsCanonical(Refs(resources));
    forall r, q | r in previous && q in Refs(resources) && ObjectOf(r) == ObjectOf(q) && ObjectOf(r).Some?
      ensures Key(r) in Keys(keep)
    {
      assert Key(q) in Keys(Refs(resources));
    }
  }

  // ----- History does not matter -----

  lemma {:induction false} ApplyAllContent(a: Store, b: Store, uid: string, resources: seq<Prepared>, id: ObjectId)
    requires id in ObjectsOf(Refs(resources))
    ensures id in ApplyAll(a, uid, resources).objects && id in ApplyAll(b, uid, resources).objects
    ensures ApplyAll(a, uid, resources).objects[id] == ApplyAll(b, uid, resources).objects[id]
  {
    hide ObjectOf;
    var m := |resources| - 1;
    assert Refs(resources) == Refs(resources[..m]) + [resources[m].ref];
    if ObjectOf(resources[m].ref) != Some(id) {
      ApplyAllContent(a, b, uid, resources[..m], id);
    }
  }

  /** Two clusters with any histories, in which the namespace has the same metadata and asks for the same
      class, end with the same inventory, the same owned objects and the same contents. */
  lemma HistoryIndependent(setup: Setup, a: Cluster, b: Cluster, n: string, cls: NamespaceClass,
                           ra: seq<Prepared>, rb: seq<Prepared>)
    requires Inv(setup, Config(a, Idle)) && CanSucceed(setup, a, n, cls, ra)
    requires Inv(setup, Config(b, Idle)) && CanSucceed(setup, b, n, cls, rb)
    requires a.namespaces[n].meta == b.namespaces[n].meta
    requires FullyCovered(a, n) && NoVersionClash(PreviousInventory(a, n), ra)
    requires FullyCovered(b, n) && NoVersionClash(PreviousInventory(b, n), rb)
    ensures var a', b' := FaultFreePass(setup, a, n), FaultFreePass(setup, b, n);
            && n in a'.bindings && n in b'.bindings
            && a'.bindings[n].status.inventory == b'.bindings[n].status.inventory
            && (forall id :: Owns(a', n, id) <==> Owns(b', n, id))
            && (forall id | Owns(a', n, id) ::
                  && id in a'.store.objects && id in b'.store.objects
                  && a'.store.objects[id] == b'.store.objects[id])
  {
    hide FaultFreePass, Inv, PreparedAll, AllRecordable, NothingBlocks, Sorted, ObjectsOf, StaleObjects, ApplyAll;
    hide Desires;
    CanSucceedServes(setup, a, n, cls, ra);
    CanSucceedServes(setup, b, n, cls, rb);
    DesiredUnique(setup, a.namespaces[n].meta, cls, ra, rb);
    Converges(setup, a, n, cls, ra);
    Converges(setup, b, n, cls, rb);
    SuccessfulPass(setup, a, n, cls, ra);
    SuccessfulPass(setup, b, n, cls, rb);
    var uid := a.namespaces[n].meta.uid;
    forall id | id in ObjectsOf(Refs(ra))
      ensures ApplyAll(a.store, uid, ra).objects.Keys >= {id} && ApplyAll(b.store, uid, ra).objects.Keys >= {id}
      ensures ApplyAll(a.store, uid, ra).objects[id] == ApplyAll(b.store, uid, ra).objects[id]
    {
      ApplyAllContent(a.store, b.store, uid, ra, id);
    }
  }

  // ----- After a lost record -----

  /** A successful pass restores full coverage exactly when every lost object of the namespace is desired,
      or is dropped as stale. */
  lemma RestoresCoverageExactly(setup: Setup, c: Cluster, n: string, cls: NamespaceClass, resources: seq<Prepared>)
    requires Inv(setup, Config(c, Idle)) && CanSucceed(setup, c, n, cls, resources)
    ensures FullyCovered(FaultFreePass(setup, c, n), n) <==>
            forall id | Owns(c, n, id) && id in c.store.pending ::
              || id in ObjectsOf(Refs(resources))
              || id in StaleObjects(PreviousInventory(c, n), Sorted(Refs(resources)))
  {
    hide FaultFreePass, Inv, PreparedAll, AllRecordable, NothingBlocks, Sorted, ObjectsOf, StaleObjects;
    SuccessfulPass(setup, c, n, cls, resources);
    SuccessKeepsInv(setup, c, n, cls, resources);
    NamedOf(setup, Config(c, Idle), n);
    var c' := SuccessState(c, n, cls, resources);
    forall id
      ensures Owns(c', n, id) <==> (Owns(c, n, id) || id in ObjectsOf(Refs(resources)))
                                   && id !in StaleObjects(PreviousInventory(c, n), Sorted(Refs(resources)))
      ensures Recorded(c', n) == ObjectsOf(Refs(resources))
      ensures Owns(c, n, id) ==> id in Recorded(c, n) || id in c.store.pending
    {
      SuccessOwners(setup, c, n, cls, resources, id);
      CoveredBetweenPasses(setup, c, n, id);
    }
    forall id | Owns(c, n, id) && id in Recorded(c, n)
      ensures id in StaleObjects(PreviousInventory(c, n), Sorted(Refs(resources))) || id in ObjectsOf(Refs(resources))
    {
      DroppedOrDesired(setup, c, n, cls, resources, id);
    }
  }

  lemma CoveredBetweenPasses(setup: Setup, c: Cluster, n: string, id: ObjectId)
    requires Inv(setup, Config(c, Idle)) && n in c.namespaces && !c.namespaces[n].deleting
    ensures Owns(c, n, id) ==> id in Recorded(c, n) || id in c.store.pending
  {
    hide ClusterInv, ObjectsOf;
  }

  /** What a pass that read cls claims is desired by cls. */
  lemma ClaimedByClass(setup: Setup, n: string, path: seq<Config>, cls: NamespaceClass, i: nat, id: ObjectId)
    returns (resources: seq<Prepared>)
    requires IsPass(setup, n, path) && Inv(setup, path[0]) && 1 <= i < |path|
    requires path[1].phase.ClassRead? && path[1].phase.found == Some(cls)
    requires id in Claimed(path[i].phase)
    ensures Desires(setup, path[0].c.namespaces[n].meta, cls, resources)
    ensures id in ObjectsOf(Refs(resources))
  {
    hide Inv, PassStep, Desires, ObjectsOf;
    var at := i;
    if path[i].phase.Recording? {
      assert PassStep(setup, path[i - 1], path[i - 1 + 1]);
      StartsRecording(setup, path[i - 1], path[i]);
      at := i - 1;
    }
    PassOnTrack(setup, n, path, cls, at);
    PassStates(setup, n, path, at);
    resources := ClaimsAreDesired(setup, path[at]);
  }

  /** Until it records, a pass that found its class keeps what was recorded, and loses nothing. */
  lemma StepKeepsPast(setup: Setup, c0: Cluster, cls: NamespaceClass, s: Config, s': Config)
    requires PassStep(setup, s, s') && OnTrack(c0, cls, s) && !s'.phase.Idle?
    ensures Recorded(s'.c, s.phase.ns.meta.name) == Recorded(s.c, s.phase.ns.meta.name)
    ensures forall id | id in s'.c.store.pending && id in s'.c.store.applied ::
              && id in s.c.store.pending && id in s.c.store.applied
              && s'.c.store.applied[id] == s.c.store.applied[id]
  {
    hide Next, Fault;
    if s' == Next(setup, s) {
      NextKeepsRecord(setup, c0, cls, s);
      forall id | id in s'.c.store.pending && id in s'.c.store.applied
        ensures && id in s.c.store.pending && id in s.c.store.applied
                && s'.c.store.applied[id] == s.c.store.applied[id]
      {
        NextLosesNothing(setup, s, id);
      }
    } else {
      FaultKeepsCluster(setup, s, s');
    }
  }

  lemma FaultKeepsCluster(setup: Setup, s: Config, s': Config)
    requires InBounds(s.phase) && Fault(setup, s, s') && !s'.phase.Idle?
    ensures s'.c == s.c
  {
    hide PreparedAll, Merge, Sorted, ObjectsOf, Key, Keys, ObjectOf;
  }

  lemma NextKeepsRecord(setup: Setup, c0: Cluster, cls: NamespaceClass, s: Config)
    requires InBounds(s.phase) && OnTrack(c0, cls, s) && !Next(setup, s).phase.Idle?
    ensures Recorded(Next(setup, s).c, s.phase.ns.meta.name) == Recorded(s.c, s.phase.ns.meta.name)
  {
    hide PreparedAll, Merge, Sorted, ObjectsOf, ClusterScoped, Key, Keys, U.IsManagedBy, Recordable;
    NoObjects();
  }

  lemma {:induction false} PassKeepsPast(setup: Setup, n: string, path: seq<Config>, cls: NamespaceClass, i: nat)
    requires IsPass(setup, n, path) && Inv(setup, path[0]) && 1 <= i < |path|
    requires path[1].phase.ClassRead? && path[1].phase.found == Some(cls) && !path[i].phase.Idle?
    ensures Recorded(path[i].c, n) == Recorded(path[0].c, n)
    ensures forall id | id in path[i].c.store.pending && id in path[i].c.store.applied ::
              && id in path[0].c.store.pending && id in path[0].c.store.applied
              && path[i].c.store.applied[id] == path[0].c.store.applied[id]
  {
    hide Inv, PassStep, Recorded, OnTrack;
    assert PassStep(setup, path[0], path[0 + 1]);
    if i == 1 {
      FirstStep(setup, path[0], path[1]);
    } else {
      assert PassStep(setup, path[i - 1], path[i - 1 + 1]);
      PassStepActive(setup, path[i - 1], path[i]);
      PassKeepsPast(setup, n, path, cls, i - 1);
      PassOnTrack(setup, n, path, cls, i - 1);
      PassStates(setup, n, path, i - 1);
      NamedOf(setup, path[0], n);
      StepKeepsPast(setup, path[0].c, cls, path[i - 1], path[i]);
    }
  }

  /** When a pass over a covered cluster ends before it records, wherever that is, the next pass that reads
      the same class for the same metadata restores coverage if it succeeds. */
  lemma SamePassRestores(setup: Setup, n: string, path: seq<Config>, cls: NamespaceClass, i: nat,
                         resources: seq<Prepared>)
    requires IsPass(setup, n, path) && Inv(setup, path[0]) && FullyCovered(path[0].c, n)
    requires 1 <= i < |path| && !path[i].phase.Idle?
    requires path[1].phase.ClassRead? && path[1].phase.found == Some(cls)
    requires CanSucceed(setup, Abort(path[i]).c, n, cls, resources)
    ensures FullyCovered(FaultFreePass(setup, Abort(path[i]).c, n), n)
  {
    hide FaultFreePass, Inv, CanSucceed, ObjectsOf, StaleObjects, Claimed, Desires, Sorted, PassStep;
    var s, c := path[i], Abort(path[i]).c;
    PassStates(setup, n, path, i);
    AbortStep(setup, s);
    CanSucceedServes(setup, c, n, cls, resources);
    RestoresCoverageExactly(setup, c, n, cls, resources);
    forall id | Owns(c, n, id) && id in c.store.pending
      ensures id in ObjectsOf(Refs(resources))
              || id in StaleObjects(PreviousInventory(c, n), Sorted(Refs(resources)))
    {
      if id in Claimed(s.phase) {
        var claimed := ClaimedByClass(setup, n, path, cls, i, id);
        AbortedMeta(setup, n, path, i);
        DesiredUnique(setup, c.namespaces[n].meta, cls, claimed, resources);
      } else {
        LostBefore(setup, n, path, cls, i, id);
        DroppedOrDesired(setup, c, n, cls, resources, id);
      }
    }
  }

  lemma AbortedMeta(setup: Setup, n: string, path: seq<Config>, i: nat)
    requires IsPass(setup, n, path) && Inv(setup, path[0]) && i < |path| && !path[i].phase.Idle?
    ensures var c := Abort(path[i]).c;
            n in c.namespaces && c.namespaces[n].meta == path[0].c.namespaces[n].meta
  {
    hide ClusterInv, Covered, PassStep, Claimed;
    PassStates(setup, n, path, i);
    NamedOf(setup, path[0], n);
  }

  /** In a covered cluster nothing lost before the pass is missing from the inventory. */
  lemma LostBefore(setup: Setup, n: string, path: seq<Config>, cls: NamespaceClass, i: nat, id: ObjectId)
    requires IsPass(setup, n, path) && Inv(setup, path[0]) && FullyCovered(path[0].c, n)
    requires 1 <= i < |path| && !path[i].phase.Idle?
    requires path[1].phase.ClassRead? && path[1].phase.found == Some(cls)
    requires var c := Abort(path[i]).c;
             && Owns(c, n, id) && id in c.store.pending && id !in Claimed(path[i].phase)
             && Labelled(c.namespaces[n])
    ensures id in Recorded(Abort(path[i]).c, n)
  {
    hide Inv, PassStep, Claimed, Recorded;
    PassKeepsPast(setup, n, path, cls, i);
    AbortedMeta(setup, n, path, i);
    assert PassStep(setup, path[0], path[0 + 1]);
    StartedLabelled(setup, path[0], path[1]);
    SameRecords(path[i].c, Abort(path[i]).c);
    assert Owns(path[0].c, n, id);
  }

  lemma StartedLabelled(setup: Setup, s: Config, s': Config)
    requires PassStep(setup, s, s') && s.phase.NamespaceRead? && s'.phase.ClassRead?
    ensures Labelled(s.phase.ns)
  {
  }
}
