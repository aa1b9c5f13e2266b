/** Passing again over a cluster that a pass has left behind: idempotence and quiescence. */
module Repetition {
  import opened Wrappers
  import opened ResourceRefs
  import opened Cluster
  import opened Prepare
  import opened Machine
  import opened Invariants
  import opened Steps
  import opened Safety
  import opened Convergence
  import U = Unstructured

  // ----- Doing it again -----

  /** Every desired object is stored under an identity of its own. */
  ghost predicate DistinctObjects(resources: seq<Prepared>) {
    forall i, j | 0 <= i < j < |resources| :: ObjectOf(resources[i].ref) != ObjectOf(resources[j].ref)
  }

  /** The cluster is as a successful pass for these resources leaves it. */
  ghost predicate Settled(setup: Setup, c: Cluster, n: string, cls: NamespaceClass, resources: seq<Prepared>) {
    && Serves(c, n, cls)
    && c.namespaces[n].meta.name == n && c.namespaces[n].HasFinalizer()
    && Desires(setup, c.namespaces[n].meta, cls, resources)
    && AllRecordable(Refs(resources))
    && n in c.bindings && c.bindings[n].namespaceName == n && c.bindings[n].className == c.namespaces[n].ClassName()
    && c.bindings[n] == Succeeded(c.bindings[n], c.namespaces[n].meta.uid, cls, Sorted(Refs(resources)))
    && forall p | p in resources :: InPlace(c, c.namespaces[n].meta.uid, p)
  }

  ghost predicate InPlace(c: Cluster, uid: string, p: Prepared) {
    ObjectOf(p.ref).Some? &&
    var id := ObjectOf(p.ref).value;
    && id in c.store.objects && c.store.objects[id] == p.content
    && id in c.store.applied && c.store.applied[id] == uid
    && id !in c.store.pending
    && U.IsManagedBy(p.content, uid)
  }

  /** Where a pass over a settled cluster can be. */
  ghost predicate Quiet(c: Cluster, n: string, cls: NamespaceClass, resources: seq<Prepared>, s: Config)
    requires n in c.namespaces && n in c.bindings
  {
    var ns, b := c.namespaces[n], c.bindings[n];
    && s.c == c
    && InBounds(s.phase)
    && match s.phase
       case NamespaceRead(ns') => ns' == ns
       case ClassRead(ns', found) => ns' == ns && found == Some(cls)
       case Guarded(ns', found) => ns' == ns && found == Some(cls)
       case Bound(ns', found, b') => ns' == ns && found == Some(cls) && b' == b
       case Applying(ns', b', cls', rs, _, _) => ns' == ns && b' == b && cls' == cls && rs == resources
       case Deleting(ns', b', why, todo, keep, _, _) =>
         && ns' == ns && b' == b && why.Stale? && why.cls == cls
         && todo == Sorted(Refs(resources)) && keep == todo
       case Recording(ns', b', _, retry) => ns' == ns && b' == b && !retry
       case Idle => true
       case _ => false
  }

  lemma QuietNext(setup: Setup, c: Cluster, n: string, cls: NamespaceClass, resources: seq<Prepared>, s: Config)
    requires Settled(setup, c, n, cls, resources)
    requires Quiet(c, n, cls, resources, s) && !s.phase.Idle?
    ensures Quiet(c, n, cls, resources, Next(setup, s))
  {
    hide PreparedAll, Sorted, Desires, U.IsManagedBy, Merge, Shaped, Foreign, ObjectOf;
    hide Recordable;
    match s.phase {
      case Bound(_, _, _) => SettledPrepares(setup, c, n, cls, resources);
      case Applying(_, _, _, _, k, _) =>
        if k < |resources| {
          assert InPlace(c, c.namespaces[n].meta.uid, resources[k]);
          RefsMember(resources, resources[k]);
          assert Recordable(resources[k].ref);
          ApplyInPlace(c, c.namespaces[n].meta.uid, resources[k]);
        }
      case Guarded(_, _) => assert c.bindings[n := c.bindings[n]] == c.bindings;
      case Recording(_, _, _, _) => assert c.bindings[n := c.bindings[n]] == c.bindings;
      case Deleting(_, _, _, todo, _, i, _) =>
        if i < |todo| {
          assert todo[i] in todo;
        }
      case _ =>
    }
  }

  lemma ApplyInPlace(c: Cluster, uid: string, p: Prepared)
    requires InPlace(c, uid, p)
    ensures c.store.Apply(ObjectOf(p.ref).value, p.content, uid) == c.store
  {
    hide ObjectOf, U.IsManagedBy;
    var id := ObjectOf(p.ref).value;
    assert c.store.objects[id := p.content] == c.store.objects;
    assert c.store.applied[id := uid] == c.store.applied;
  }

  lemma SettledPrepares(setup: Setup, c: Cluster, n: string, cls: NamespaceClass, resources: seq<Prepared>)
    requires Settled(setup, c, n, cls, resources)
    ensures PreparedAll(setup, c.namespaces[n].meta, cls, c.store.objects, |cls.resources|) == Success(resources)
  {
    hide PreparedAll, Sorted, U.IsManagedBy, Shaped, ObjectOf, Recordable, Key;
    var uid := c.namespaces[n].meta.uid;
    forall i | 0 <= i < |resources|
      ensures !Foreign(c.store.objects, resources[i].ref, uid)
    {
      assert InPlace(c, uid, resources[i]);
    }
    DesiredPasses(setup, c.namespaces[n].meta, cls, c.store.objects, |cls.resources|, resources);
  }

  /** Quiescence: a pass over a settled cluster changes nothing at any point. */
  lemma {:induction false} QuietPass(setup: Setup, n: string, path: seq<Config>, cls: NamespaceClass,
                                     resources: seq<Prepared>, i: nat)
    requires IsPass(setup, n, path) && i < |path|
    requires forall j | 0 <= j < |path| - 1 :: InBounds(path[j].phase) && path[j + 1] == Next(setup, path[j])
    requires Settled(setup, path[0].c, n, cls, resources)
    ensures path[i].c == path[0].c
    ensures Quiet(path[0].c, n, cls, resources, path[i])
  {
    hide PassStep, Next, Settled, Quiet;
    assert n in path[0].c.bindings by { SettledBound(setup, path[0].c, n, cls, resources); }
    if i == 0 {
      QuietStart(setup, path[0], n, cls, resources);
    } else {
      QuietPass(setup, n, path, cls, resources, i - 1);
      assert PassStep(setup, path[i - 1], path[i - 1 + 1]);
      PassStepActive(setup, path[i - 1], path[i]);
      assert path[i - 1 + 1] == Next(setup, path[i - 1]);
      QuietNext(setup, path[0].c, n, cls, resources, path[i - 1]);
    }
    QuietMeansSame(path[0].c, n, cls, resources, path[i]);
  }

  lemma SettledBound(setup: Setup, c: Cluster, n: string, cls: NamespaceClass, resources: seq<Prepared>)
    requires Settled(setup, c, n, cls, resources)
    ensures n in c.namespaces && n in c.bindings
  {
  }

  lemma QuietStart(setup: Setup, s: Config, n: string, cls: NamespaceClass, resources: seq<Prepared>)
    requires Settled(setup, s.c, n, cls, resources) && s.phase == NamespaceRead(s.c.namespaces[n])
    ensures Quiet(s.c, n, cls, resources, s)
  {
  }

  lemma QuietMeansSame(c: Cluster, n: string, cls: NamespaceClass, resources: seq<Prepared>, s: Config)
    requires n in c.namespaces && n in c.bindings && Quiet(c, n, cls, resources, s)
    ensures s.c == c
  {
  }

  lemma {:induction false} QuietDrive(setup: Setup, c: Cluster, n: string, cls: NamespaceClass,
                                      resources: seq<Prepared>, s: Config)
    requires Settled(setup, c, n, cls, resources) && Quiet(c, n, cls, resources, s) && InBounds(s.phase)
    ensures Drive(setup, s).c == c
    decreases Rank(s.phase), LeftInLoop(s.phase)
  {
    hide Settled, Quiet, Next;
    SettledBound(setup, c, n, cls, resources);
    if s.phase.Idle? {
      QuietMeansSame(c, n, cls, resources, s);
    } else {
      QuietNext(setup, c, n, cls, resources, s);
      NextDescends(setup, s);
      QuietDrive(setup, c, n, cls, resources, Next(setup, s));
    }
  }

  /** A successful pass settles the namespace. */
  lemma PassSettles(setup: Setup, c: Cluster, n: string, cls: NamespaceClass, resources: seq<Prepared>)
    requires Inv(setup, Config(c, Idle)) && CanSucceed(setup, c, n, cls, resources)
    requires NoVersionClash(PreviousInventory(c, n), resources) && DistinctObjects(resources)
    ensures Settled(setup, FaultFreePass(setup, c, n), n, cls, resources)
  {
    hide FaultFreePass, Inv, CanSucceed, Settled;
    CanSucceedServes(setup, c, n, cls, resources);
    SuccessfulPass(setup, c, n, cls, resources);
    SuccessSettles(setup, c, n, cls, resources);
  }

  lemma SettledIsFixed(setup: Setup, c: Cluster, n: string, cls: NamespaceClass, resources: seq<Prepared>)
    requires Settled(setup, c, n, cls, resources)
    ensures FaultFreePass(setup, c, n) == c
  {
    hide Drive;
    var s := Begin(Config(c, Idle), n);
    QuietStart(setup, s, n, cls, resources);
    QuietDrive(setup, c, n, cls, resources, s);
  }

  lemma SuccessSettles(setup: Setup, c: Cluster, n: string, cls: NamespaceClass, resources: seq<Prepared>)
    requires Inv(setup, Config(c, Idle)) && CanSucceed(setup, c, n, cls, resources)
    requires NoVersionClash(PreviousInventory(c, n), resources) && DistinctObjects(resources)
    ensures Settled(setup, SuccessState(c, n, cls, resources), n, cls, resources)
  {
    hide Inv, PreparedAll, Sorted, StaleObjects, ObjectsOf, NothingBlocks, ApplyAll, Desires, NoVersionClash;
    hide Recordable, InPlace, DistinctObjects;
    CanSucceedServes(setup, c, n, cls, resources);
    NamedOf(setup, Config(c, Idle), n);
    forall p | p in resources
      ensures InPlace(SuccessState(c, n, cls, resources), c.namespaces[n].meta.uid, p)
    {
      SuccessInPlace(setup, c, n, cls, resources, p);
    }
  }

  lemma SuccessInPlace(setup: Setup, c: Cluster, n: string, cls: NamespaceClass, resources: seq<Prepared>, p: Prepared)
    requires CanSucceed(setup, c, n, cls, resources) && p in resources
    requires NoVersionClash(PreviousInventory(c, n), resources) && DistinctObjects(resources)
    ensures InPlace(SuccessState(c, n, cls, resources), c.namespaces[n].meta.uid, p)
  {
    hide PreparedAll, Sorted, StaleObjects, ObjectsOf, NothingBlocks, ApplyAll, U.IsManagedBy;
    hide Recordable, WellPrepared, ObjectOf, Shaped, Foreign, Problem, BindingFor;
    var meta := c.namespaces[n].meta;
    PrepareGate(setup, meta, cls, c.store.objects, |cls.resources|);
    var i :| 0 <= i < |resources| && resources[i] == p;
    WellPreparedScope(setup, meta, p);
    RefsMember(resources, p);
    NamedByRef(Refs(resources), p.ref);
    ApplyAllInPlace(c, meta.uid, resources, i);
  }

  lemma NamedByRef(refs: seq<ResourceRef>, r: ResourceRef)
    requires r in refs && ObjectOf(r).Some?
    ensures ObjectOf(r).value in ObjectsOf(refs)
  {
  }

  lemma {:induction false} ApplyAllInPlace(c: Cluster, uid: string, resources: seq<Prepared>, i: nat)
    requires i < |resources| && ObjectOf(resources[i].ref).Some? && U.IsManagedBy(resources[i].content, uid)
    requires DistinctObjects(resources)
    ensures InPlace(c.(store := ApplyAll(c.store, uid, resources)), uid, resources[i])
  {
    hide ObjectOf, U.IsManagedBy;
    var m := |resources| - 1;
    if i < m {
      assert resources[..m][i] == resources[i];
      ApplyAllInPlace(c, uid, resources[..m], i);
    }
  }

  // ----- Exactly when a second pass changes nothing -----

  /** Nothing is stale with respect to itself. */
  lemma NothingStale(keep: seq<ResourceRef>)
    ensures StaleObjects(keep, keep) == {}
  {
    hide Key, ObjectOf;
  }

  lemma RemoveNone(store: Store)
    ensures store.Remove({}) == store
  {
    assert store.objects - {} == store.objects && store.applied - {} == store.applied;
  }

  /** Applying again over what pruning left puts back exactly what pruning took of the desired objects. */
  lemma ApplyAgain(store: Store, uid: string, resources: seq<Prepared>, gone: set<ObjectId>)
    ensures var once := ApplyAll(store, uid, resources).Remove(gone);
            ApplyAll(once, uid, resources) == once <==> gone !! ObjectsOf(Refs(resources))
  {
    hide ObjectsOf, ApplyAll;
    var desired := ObjectsOf(Refs(resources));
    var all := ApplyAll(store, uid, resources);
    var once := all.Remove(gone);
    var twice := ApplyAll(once, uid, resources);
    ApplyAllAdds(store, uid, resources);
    ApplyAllAdds(once, uid, resources);
    forall id
      ensures id in twice.applied <==> id in once.applied || id in desired
      ensures id in twice.pending <==> id in once.pending && id !in desired
      ensures id in desired ==> id in all.applied && id !in all.pending
      ensures id in twice.applied && id !in gone ==> id in once.applied && twice.applied[id] == once.applied[id]
    {
      ApplyAllOwners(store, uid, resources, id);
      ApplyAllOwners(once, uid, resources, id);
    }
    if gone !! desired {
      forall id | id in twice.objects
        ensures id in once.objects && twice.objects[id] == once.objects[id]
      {
        if id in desired {
          ApplyAllContent(store, once, uid, resources, id);
        }
      }
      assert twice.objects == once.objects && twice.applied == once.applied;
    }
  }

  /** After a success the next pass can succeed too. */
  lemma SucceedsAgain(setup: Setup, c: Cluster, n: string, cls: NamespaceClass, resources: seq<Prepared>)
    requires Inv(setup, Config(c, Idle)) && CanSucceed(setup, c, n, cls, resources)
    ensures CanSucceed(setup, SuccessState(c, n, cls, resources), n, cls, resources)
    ensures NoVersionClash(Sorted(Refs(resources)), resources)
    ensures PreviousInventory(SuccessState(c, n, cls, resources), n) == Sorted(Refs(resources))
  {
    hide Inv, PreparedAll, Sorted, StaleObjects, ObjectsOf, ObjectOf, ApplyAll, Desires, Recordable, BindingFor;
    hide U.IsManagedBy, Key, Keys;
    var c', meta := SuccessState(c, n, cls, resources), c.namespaces[n].meta;
    CanSucceedServes(setup, c, n, cls, resources);
    NothingStale(Sorted(Refs(resources)));
    ManagedAfter(setup, c, n, cls, resources);
    DesiredPasses(setup, meta, cls, c'.store.objects, |cls.resources|, resources);
    KeptBlocksNothing(c'.store, meta.uid, Sorted(Refs(resources)));
  }

  lemma KeptBlocksNothing(store: Store, uid: string, keep: seq<ResourceRef>)
    ensures NothingBlocks(store, uid, keep, keep)
  {
    hide Key, ObjectOf, U.IsManagedBy;
  }

  lemma ManagedAfter(setup: Setup, c: Cluster, n: string, cls: NamespaceClass, resources: seq<Prepared>)
    requires CanSucceed(setup, c, n, cls, resources)
    ensures forall i | 0 <= i < |resources| ::
              !Foreign(SuccessState(c, n, cls, resources).store.objects, resources[i].ref, c.namespaces[n].meta.uid)
  {
    hide PreparedAll, Sorted, StaleObjects, ObjectsOf, ObjectOf, ApplyAll, Desires, Recordable, BindingFor;
    hide U.IsManagedBy, NothingBlocks, Shaped, Problem;
    var meta := c.namespaces[n].meta;
    PrepareGate(setup, meta, cls, c.store.objects, |cls.resources|);
    forall i | 0 <= i < |resources|
      ensures !Foreign(SuccessState(c, n, cls, resources).store.objects, resources[i].ref, meta.uid)
    {
      assert WellPrepared(setup, meta, resources[i]);
      RefsMember(resources, resources[i]);
      NamedByRef(Refs(resources), resources[i].ref);
      ApplyAllManaged(c.store, meta.uid, resources, ObjectOf(resources[i].ref).value);
    }
  }

  /** The bookkeeping of a second pass is the first one's; only the store may differ. */
  lemma SecondSuccess(setup: Setup, c: Cluster, n: string, cls: NamespaceClass, resources: seq<Prepared>)
    requires Inv(setup, Config(c, Idle)) && CanSucceed(setup, c, n, cls, resources)
    ensures var c' := SuccessState(c, n, cls, resources);
            SuccessState(c', n, cls, resources)
            == c'.(store := ApplyAll(c'.store, c.namespaces[n].meta.uid, resources))
  {
    hide Inv, PreparedAll, Sorted, StaleObjects, ApplyAll, Recordable, NothingBlocks;
    NamedOf(setup, Config(c, Idle), n);
    var c' := SuccessState(c, n, cls, resources);
    var c'' := SuccessState(c', n, cls, resources);
    NothingStale(Sorted(Refs(resources)));
    RemoveNone(ApplyAll(c'.store, c.namespaces[n].meta.uid, resources));
    BoundAlready(c, n, cls, Sorted(Refs(resources)));
    assert c''.namespaces == c'.namespaces;
    assert c''.bindings == c'.bindings;
  }

  lemma BoundAlready(c: Cluster, n: string, cls: NamespaceClass, keep: seq<ResourceRef>)
    requires n in c.namespaces && c.namespaces[n].meta.name == n
    ensures var ns := Guarding(c.namespaces[n]);
            var b := Succeeded(BindingFor(c, ns), ns.meta.uid, cls, keep);
            && Guarding(ns) == ns
            && b.namespaceName == n && b.className == ns.ClassName()
            && Succeeded(b, ns.meta.uid, cls, keep) == b
  {
  }

  /** A second pass over an unchanged class and namespace is the identity exactly when the first one dropped
      no reference to a desired object under another API version. */
  lemma IdempotentExactly(setup: Setup, c: Cluster, n: string, cls: NamespaceClass, resources: seq<Prepared>)
    requires Inv(setup, Config(c, Idle)) && CanSucceed(setup, c, n, cls, resources)
    ensures var c' := FaultFreePass(setup, c, n);
            FaultFreePass(setup, c', n) == c' <==> NoVersionClash(PreviousInventory(c, n), resources)
  {
    hide FaultFreePass, Inv, CanSucceed, ApplyAll, ObjectsOf, StaleObjects, Sorted, BindingFor;
    CanSucceedServes(setup, c, n, cls, resources);
    SuccessfulPass(setup, c, n, cls, resources);
    SuccessKeepsInv(setup, c, n, cls, resources);
    SucceedsAgain(setup, c, n, cls, resources);
    SuccessfulPass(setup, SuccessState(c, n, cls, resources), n, cls, resources);
    SecondSuccess(setup, c, n, cls, resources);
    ApplyAgain(c.store, c.namespaces[n].meta.uid, resources,
               StaleObjects(PreviousInventory(c, n), Sorted(Refs(resources))));
  }

  /** Whatever was recorded before, version bumps included, the second successful pass leaves exactly the
      desired objects, and from then on every further pass is the identity. */
  lemma TwoPassesConverge(setup: Setup, c: Cluster, n: string, cls: NamespaceClass, resources: seq<Prepared>)
    requires Inv(setup, Config(c, Idle)) && CanSucceed(setup, c, n, cls, resources)
    requires FullyCovered(c, n)
    ensures var c2 := FaultFreePass(setup, FaultFreePass(setup, c, n), n);
            && OwnsExactly(c2, n, ObjectsOf(Refs(resources)))
            && Recorded(c2, n) == ObjectsOf(Refs(resources))
            && FullyCovered(c2, n)
            && FaultFreePass(setup, c2, n) == c2
  {
    hide FaultFreePass, Inv, CanSucceed, ApplyAll, ObjectsOf, StaleObjects, Sorted, BindingFor, NoVersionClash;
    hide FullyCovered, SuccessState, OwnsExactly;
    CanSucceedServes(setup, c, n, cls, resources);
    SuccessfulPass(setup, c, n, cls, resources);
    SuccessKeepsInv(setup, c, n, cls, resources);
    SucceedsAgain(setup, c, n, cls, resources);
    Converges(setup, c, n, cls, resources);
    Converges(setup, SuccessState(c, n, cls, resources), n, cls, resources);
    IdempotentExactly(setup, SuccessState(c, n, cls, resources), n, cls, resources);
    SortedMembers(Refs(resources));
  }
}
