/** Passes for namespaces that have no class to serve. */
module Cleanup {
  import opened Wrappers
  import opened ResourceRefs
  import opened Cluster
  import opened Prepare
  import opened Machine
  import opened Invariants
  import opened Steps
  import opened Safety
  import opened Convergence
  import U = Unstructured

  // ----- Cleanup -----

  /** The namespace has no class to serve: its label is gone, its class is missing, or it is being deleted
      and still guarded. */
  ghost predicate NeedsCleanup(c: Cluster, n: string) {
    n in c.namespaces &&
    var ns := c.namespaces[n];
    if ns.deleting then ns.HasFinalizer() else ns.ClassName() == "" || ns.ClassName() !in c.classes
  }

  /** Nothing the cleanup answers for is left, but what was lost before. */
  ghost predicate AllGone(c: Cluster, n: string) {
    n in c.namespaces && forall id | Owns(c, n, id) && Relevant(c.namespaces[n], id) :: id in c.store.pending
  }

  function CleanupList(c: Cluster, n: string): seq<ResourceRef>
    requires n in c.namespaces
  {
    if c.namespaces[n].deleting then ClusterScoped(PreviousInventory(c, n)) else PreviousInventory(c, n)
  }

  /** Why the pass cleans up, and the binding it does it for. */
  function CleanupWhy(c: Cluster, n: string): Why
    requires n in c.namespaces
  {
    var ns := c.namespaces[n];
    if ns.deleting then NamespaceGone else if ns.ClassName() == "" then LabelGone else ClassGone
  }

  function CleanupBinding(c: Cluster, n: string): Binding
    requires n in c.namespaces && (n in c.bindings || Labelled(c.namespaces[n]))
  {
    if Labelled(c.namespaces[n]) then BindingFor(c, c.namespaces[n]) else c.bindings[n]
  }

  /** The status a failed cleanup leaves: the inventory is kept whole. */
  function CleanupFailureStatus(c: Cluster, n: string): Status
    requires n in c.namespaces && (n in c.bindings || Labelled(c.namespaces[n]))
  {
    var b, uid := CleanupBinding(c, n), c.namespaces[n].meta.uid;
    if CleanupWhy(c, n).ClassGone? then
      Status(uid, 0, PreviousInventory(c, n), Some(Condition(false, CleanupFailed, b.generation)))
    else
      Status(uid, b.status.observedClassGeneration, PreviousInventory(c, n),
             Some(Condition(false, DeleteFailed, b.generation)))
  }

  /** The delete loop of a cleanup pass. */
  ghost predicate CleanupLoop(setup: Setup, c: Cluster, n: string, s: Config)
    requires n in c.namespaces && (n in c.bindings || Labelled(c.namespaces[n]))
  {
    && s.phase.Deleting? && s.phase.i == 0
    && s.phase.why == CleanupWhy(c, n) && s.phase.binding == CleanupBinding(c, n)
    && s.phase.ns == c.namespaces[n] && s.phase.ns.meta.name == n
    && s.phase.todo == CleanupList(c, n) && s.phase.keep == [] && s.phase.start == c.store
    && s.c.store == c.store && s.c.namespaces == c.namespaces && s.c.bindings - {n} == c.bindings - {n}
    && StoreOk(s.c)
  }

  lemma DriveToCleanup(setup: Setup, c: Cluster, n: string) returns (s: Config)
    requires Inv(setup, Config(c, Idle)) && NeedsCleanup(c, n)
    requires n in c.bindings || Labelled(c.namespaces[n])
    ensures CleanupLoop(setup, c, n, s)
    ensures FaultFreePass(setup, c, n) == Drive(setup, s).c
  {
    hide Drive, Covered, InventoriesGood, GuardedByFinalizer, NoOrphans, ClusterScoped;
    NamedOf(setup, Config(c, Idle), n);
    var s0 := Begin(Config(c, Idle), n);
    DriveNext(setup, s0);
    var s1 := Next(setup, s0);
    if s1.phase.Deleting? {
      s := s1;
    } else {
      var s2 := Next(setup, s1);
      var s3 := Next(setup, s2);
      s := Next(setup, s3);
      DriveNext(setup, s1);
      DriveNext(setup, s2);
      DriveNext(setup, s3);
    }
  }

  /** What an unblocked cleanup leaves. */
  ghost predicate CleanedUp(c: Cluster, n: string, c': Cluster)
    requires n in c.namespaces
  {
    && n !in c'.bindings && AllGone(c', n)
    && c'.store == c.store.Remove(StaleObjects(CleanupList(c, n), []))
    && !c'.namespaces[n].HasFinalizer()
  }

  /** What a blocked cleanup leaves: deletions up to the first reference that blocks, the binding with its
      whole inventory and the reason, and the finalizer where it was. */
  ghost predicate StoppedShort(c: Cluster, n: string, c': Cluster)
    requires n in c.namespaces
  {
    var uid, todo := c.namespaces[n].meta.uid, CleanupList(c, n);
    && (n in c.bindings || Labelled(c.namespaces[n]))
    && n in c'.bindings && c'.bindings[n] == CleanupBinding(c, n).(status := CleanupFailureStatus(c, n))
    && c'.store == c.store.Remove(StaleObjects(todo[..BlockedAt(c.store.objects, uid, todo, [], 0)], []))
    && c'.namespaces == c.namespaces
  }

  lemma UnblockedCleanup(setup: Setup, c: Cluster, n: string)
    requires Inv(setup, Config(c, Idle)) && NeedsCleanup(c, n)
    requires n in c.bindings || Labelled(c.namespaces[n])
    requires NothingBlocks(c.store, c.namespaces[n].meta.uid, CleanupList(c, n), [])
    ensures CleanedUp(c, n, FaultFreePass(setup, c, n))
  {
    hide FaultFreePass, Drive, Inv, NothingBlocks, StaleObjects, ClusterScoped, Covered, AllGone;
    var todo := CleanupList(c, n);
    PassEndsInInv(setup, c, n);
    var s := DriveToCleanup(setup, c, n);
    RemoveNothing(c.store, [], todo);
    DriveDeleting(setup, s);
    var done := Config(s.c.(store := c.store.Remove(StaleObjects(todo, []))), s.phase.(i := |todo|));
    DriveNext(setup, done);
    DriveNext(setup, Next(setup, done));
    DriveNext(setup, Next(setup, Next(setup, done)));
    DriveIdle(setup, Next(setup, Next(setup, Next(setup, done))));
    WithoutRemoves(c.namespaces[n].finalizers, Finalizer);
    NoBindingMeansLost(setup, FaultFreePass(setup, c, n), n);
  }

  lemma BlockedCleanup(setup: Setup, c: Cluster, n: string)
    requires Inv(setup, Config(c, Idle)) && NeedsCleanup(c, n)
    requires n in c.bindings || Labelled(c.namespaces[n])
    requires !NothingBlocks(c.store, c.namespaces[n].meta.uid, CleanupList(c, n), [])
    ensures StoppedShort(c, n, FaultFreePass(setup, c, n))
  {
    hide FaultFreePass, Drive, Inv, NothingBlocks, StaleObjects, ClusterScoped, Covered, BlockedAt;
    var todo := CleanupList(c, n);
    var s := DriveToCleanup(setup, c, n);
    RemoveNothing(c.store, [], todo);
    BlockedExactly(c.store, c.namespaces[n].meta.uid, todo, []);
    assert BlockedAt(c.store.objects, c.namespaces[n].meta.uid, todo, [], 0) < |todo|;
    DriveBlocked(setup, s);
  }

  /** A cleanup pass without failing calls removes every listed object, the binding and the finalizer,
      exactly when nothing in its list blocks; otherwise it stops short and says so. */
  lemma CleanupExactly(setup: Setup, c: Cluster, n: string)
    requires Inv(setup, Config(c, Idle)) && NeedsCleanup(c, n)
    ensures var c' := FaultFreePass(setup, c, n);
            && (CleanedUp(c, n, c') <==> NothingBlocks(c.store, c.namespaces[n].meta.uid, CleanupList(c, n), []))
            && (CleanedUp(c, n, c') || StoppedShort(c, n, c'))
  {
    hide FaultFreePass, Inv, NothingBlocks, StaleObjects, ClusterScoped, CleanupFailureStatus;
    if n !in c.bindings && !Labelled(c.namespaces[n]) {
      NoBindingCleanup(setup, c, n);
    } else if NothingBlocks(c.store, c.namespaces[n].meta.uid, CleanupList(c, n), []) {
      UnblockedCleanup(setup, c, n);
    } else {
      BlockedCleanup(setup, c, n);
    }
  }

  lemma {:induction false} WithoutRemoves(finalizers: seq<string>, f: string)
    ensures f !in Without(finalizers, f)
    ensures forall g | g != f :: g in Without(finalizers, f) <==> g in finalizers
  {
    if finalizers != [] {
      var m := |finalizers| - 1;
      WithoutRemoves(finalizers[..m], f);
      assert finalizers == finalizers[..m] + [finalizers[m]];
    }
  }

  lemma NoBindingMeansLost(setup: Setup, c: Cluster, n: string)
    requires Inv(setup, Config(c, Idle)) && n !in c.bindings && n in c.namespaces
    ensures AllGone(c, n)
  {
    hide ClusterInv;
  }

  lemma NoBindingCleanup(setup: Setup, c: Cluster, n: string)
    requires Inv(setup, Config(c, Idle)) && NeedsCleanup(c, n)
    requires n !in c.bindings && !Labelled(c.namespaces[n])
    ensures CleanedUp(c, n, FaultFreePass(setup, c, n))
    ensures NothingBlocks(c.store, c.namespaces[n].meta.uid, CleanupList(c, n), [])
  {
    hide Drive, Inv, Blocks, StaleObjects;
    NamedOf(setup, Config(c, Idle), n);
    PassEndsInInv(setup, c, n);
    var s0 := Begin(Config(c, Idle), n);
    DriveNext(setup, s0);
    DriveNext(setup, Next(setup, s0));
    DriveIdle(setup, Next(setup, Next(setup, s0)));
    WithoutRemoves(c.namespaces[n].finalizers, Finalizer);
    RemoveNothing(c.store, [], []);
    assert CleanupList(c, n) == [];
    NoBindingMeansLost(setup, FaultFreePass(setup, c, n), n);
  }
}
