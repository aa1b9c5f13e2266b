/** What the invariant means: safety over every run and at every point of every pass. */
module Safety {
  import opened Wrappers
  import opened ResourceRefs
  import opened Cluster
  import opened Prepare
  import opened Machine
  import opened Invariants
  import opened Steps
  import U = Unstructured

  // ----- Coverage -----

  /** The inventory answers for every object applied for the namespace. */
  ghost predicate FullyCovered(c: Cluster, n: string) {
    forall id | Owns(c, n, id) && Relevant(c.namespaces[n], id) :: id in Recorded(c, n)
  }

  /** The step does not end a pass between applying an object and recording it. */
  ghost predicate KeepsRecord(setup: Setup, s: Config, s': Config) {
    PassStep(setup, s, s') && Claimed(s.phase) != {} && s' == Abort(s) ==> s' == Next(setup, s)
  }

  ghost predicate LossFreeRun(setup: Setup, run: seq<Config>) {
    IsRun(setup, run) && forall i | 0 <= i < |run| - 1 :: KeepsRecord(setup, run[i], run[i + 1])
  }

  lemma StepLosesNothing(setup: Setup, s: Config, s': Config)
    requires Step(setup, s, s') && KeepsRecord(setup, s, s')
    ensures s'.c.store.pending <= s.c.store.pending
  {
    hide PreparedAll, Merge, Sorted, ObjectsOf, Key, Keys, U.IsManagedBy, Recordable, BindingFor;
    if !PassStep(setup, s, s') && EnvStep(s, s') {
      var a :| Allowed(s, a) && s' == s.(c := Do(s.c, a));
    }
  }

  lemma {:induction false} NothingPending(setup: Setup, run: seq<Config>)
    requires LossFreeRun(setup, run)
    ensures run[|run| - 1].c.store.pending == {}
    decreases |run|
  {
    hide Step, KeepsRecord;
    var n := |run| - 1;
    if n > 0 {
      var shorter := run[..n];
      NothingPending(setup, shorter);
      assert Step(setup, run[n - 1], run[n - 1 + 1]) && KeepsRecord(setup, run[n - 1], run[n - 1 + 1]);
      StepLosesNothing(setup, run[n - 1], run[n]);
    }
  }

  /** Strong coverage: in a run in which every pass that applied something gets to write its status, any
      other call may fail at any point and still no applied object is missing from the inventory; for a
      namespace being deleted this holds of the cluster-scoped ones. */
  lemma StrongCoverage(setup: Setup, run: seq<Config>, n: string)
    requires LossFreeRun(setup, run) && run[|run| - 1].phase.Idle?
    ensures FullyCovered(run[|run| - 1].c, n)
  {
    NothingPending(setup, run);
    RunKeepsInv(setup, run);
  }

  /** Inside a pass the objects it has applied so far make up the difference. */
  lemma CoverageInsidePass(setup: Setup, run: seq<Config>, n: string, id: ObjectId)
    requires LossFreeRun(setup, run)
    requires var s := run[|run| - 1]; Owns(s.c, n, id) && Relevant(s.c.namespaces[n], id)
    ensures var s := run[|run| - 1]; id in Recorded(s.c, n) || ClaimedFor(s, n, id)
  {
    NothingPending(setup, run);
    RunKeepsInv(setup, run);
  }

  // ----- Finalizer and deletion -----

  /** A namespace with a live cluster-scoped object applied for it carries the finalizer, at every point of
      every pass and on all three ways the finalizer is removed. */
  lemma FinalizerGuard(setup: Setup, run: seq<Config>, n: string, id: ObjectId)
    requires LossFreeRun(setup, run)
    requires Owns(run[|run| - 1].c, n, id) && id.namespace == ""
    ensures run[|run| - 1].c.namespaces[n].HasFinalizer()
  {
    NothingPending(setup, run);
    RunKeepsInv(setup, run);
  }

  /** When the finalizer goes, nothing is left that the inventory answers for. */
  lemma ReleasedIsClean(setup: Setup, s: Config, s': Config, n: string, id: ObjectId)
    requires Inv(setup, s) && Step(setup, s, s')
    requires n in s.c.namespaces && s.c.namespaces[n].HasFinalizer()
    requires n in s'.c.namespaces && !s'.c.namespaces[n].HasFinalizer()
    requires Owns(s'.c, n, id) && Relevant(s'.c.namespaces[n], id)
    ensures id in s'.c.store.pending
  {
    StepKeepsInv(setup, s, s');
  }

  /** Every recorded reference is cluster-wide or in the bound namespace, so the two halves of a deletion,
      the controller's and the garbage collector's, reach everything: in every reachable state an applied
      object belongs to a namespace that still exists. */
  lemma DeletionComplete(setup: Setup, run: seq<Config>, id: ObjectId) returns (n: string)
    requires LossFreeRun(setup, run)
    requires id in run[|run| - 1].c.store.applied
    ensures Owns(run[|run| - 1].c, n, id) && (id.namespace == "" || id.namespace == n)
  {
    NothingPending(setup, run);
    RunKeepsInv(setup, run);
    n :| Owns(run[|run| - 1].c, n, id);
  }

  // ----- Status and inventory -----

  /** Every stored inventory is strictly sorted by key, and names objects in the namespace or none. */
  lemma CanonicalInventories(setup: Setup, s: Config, n: string)
    requires Reachable(setup, s) && n in s.c.bindings
    ensures Canonical(s.c.bindings[n].status.inventory)
    ensures forall r | r in s.c.bindings[n].status.inventory ::
              Recordable(r) && (r.namespace == "" || r.namespace == n)
  {
    hide Canonical, Recordable;
    ReachableInv(setup, s);
  }

  // ----- Inside one pass -----

  lemma PassKeepsNamespace(setup: Setup, s: Config, s': Config)
    requires PassStep(setup, s, s')
    ensures !s'.phase.Idle? ==> s'.phase.ns.meta == s.phase.ns.meta
  {
    hide PreparedAll, Merge, Sorted, ObjectsOf, Key, Keys, U.IsManagedBy, Recordable, BindingFor;
  }

  lemma {:induction false} PassStates(setup: Setup, n: string, path: seq<Config>, i: nat)
    requires IsPass(setup, n, path) && Inv(setup, path[0]) && i < |path|
    ensures Inv(setup, path[i])
    ensures !path[i].phase.Idle? ==> path[i].phase.ns.meta == path[0].c.namespaces[n].meta
  {
    hide Inv, PassStep;
    if i > 0 {
      PassStates(setup, n, path, i - 1);
      assert PassStep(setup, path[i - 1], path[i - 1 + 1]);
      PassKeepsInv(setup, path[i - 1], path[i]);
      PassKeepsNamespace(setup, path[i - 1], path[i]);
      assert !path[i - 1].phase.Idle? by { PassStepActive(setup, path[i - 1], path[i]); }
    }
  }

  lemma PassStepActive(setup: Setup, s: Config, s': Config)
    requires PassStep(setup, s, s')
    ensures !s.phase.Idle?
  {
  }

  /** Outside the two loops a step leaves all objects alone. */
  lemma OnlyLoopsTouchObjects(setup: Setup, s: Config, s': Config)
    requires PassStep(setup, s, s')
    requires !s.phase.Applying? && !s.phase.Deleting?
    ensures s'.c.store.objects == s.c.store.objects
  {
    hide PreparedAll, Merge, Sorted, ObjectsOf, BindingFor, ClusterScoped;
  }

  /** In the apply loop, a step changes at most the object of the resource it is at. */
  lemma ApplyTouchesOne(setup: Setup, s: Config, s': Config)
    requires PassStep(setup, s, s') && s.phase.Applying?
    ensures || s'.c.store.objects == s.c.store.objects
            || (s.phase.k < |s.phase.resources|
                && var p := s.phase.resources[s.phase.k];
                   ObjectOf(p.ref).Some?
                   && s'.c.store.objects == s.c.store.objects[ObjectOf(p.ref).value := p.content])
  {
    hide Merge, Sorted, ObjectsOf;
  }

  /** In the delete loop, a step removes at most one object, and only one that is marked as owned. */
  lemma DeleteRemovesOwned(setup: Setup, s: Config, s': Config)
    requires PassStep(setup, s, s') && s.phase.Deleting?
    ensures || s'.c.store.objects == s.c.store.objects
            || (exists id :: id in s.c.store.objects
                             && U.IsManagedBy(s.c.store.objects[id], s.phase.ns.meta.uid)
                             && s'.c.store.objects == s.c.store.objects - {id})
  {
    hide Merge, Sorted, ObjectsOf, U.IsManagedBy, Key, Keys;
  }

  lemma StepKeepsUnmanaged(setup: Setup, s: Config, s': Config, id: ObjectId)
    requires Inv(setup, s) && PassStep(setup, s, s')
    requires id in s.c.store.objects && !U.IsManagedBy(s.c.store.objects[id], s.phase.ns.meta.uid)
    ensures id in s'.c.store.objects && s'.c.store.objects[id] == s.c.store.objects[id]
  {
    hide ClusterInv, PassStep, U.IsManagedBy, Desires, WellPrepared, Covered, Canonical, ObjectsOf, ObjectOf;
    if s.phase.Applying? {
      ApplyTouchesOne(setup, s, s');
      if s.phase.k < |s.phase.resources| {
        assert s.phase.resources[s.phase.k] in s.phase.resources;
      }
    } else if s.phase.Deleting? {
      DeleteRemovesOwned(setup, s, s');
    } else {
      OnlyLoopsTouchObjects(setup, s, s');
    }
  }

  lemma StepKeepsOthers(setup: Setup, s: Config, s': Config, m: string)
    requires PassStep(setup, s, s') && m != s.phase.ns.meta.name
    ensures m in s'.c.namespaces <==> m in s.c.namespaces
    ensures m in s.c.namespaces ==> s'.c.namespaces[m] == s.c.namespaces[m]
    ensures m in s'.c.bindings <==> m in s.c.bindings
    ensures m in s.c.bindings ==> s'.c.bindings[m] == s.c.bindings[m]
  {
    hide PreparedAll, Merge, Sorted, ObjectsOf, BindingFor, ClusterScoped, Key, Keys, U.IsManagedBy;
  }

  lemma StepKeepsClasses(setup: Setup, s: Config, s': Config)
    requires PassStep(setup, s, s')
    ensures s'.c.classes == s.c.classes
  {
    hide PreparedAll, Merge, Sorted, ObjectsOf, BindingFor, ClusterScoped, Key, Keys, U.IsManagedBy;
  }

  /** A pass for one namespace leaves alone every object that is not marked as owned by that namespace, and
      every other namespace, binding and class; with the invariant, the other namespaces stay covered and
      guarded. */
  lemma {:induction false} NonInterference(setup: Setup, n: string, path: seq<Config>, i: nat)
    requires IsPass(setup, n, path) && Inv(setup, path[0]) && i < |path|
    ensures var c, c' := path[0].c, path[i].c;
            && (forall id | id in c.store.objects
                            && !U.IsManagedBy(c.store.objects[id], c.namespaces[n].meta.uid) ::
                  id in c'.store.objects && c'.store.objects[id] == c.store.objects[id])
            && (forall m | m != n :: m in c'.namespaces <==> m in c.namespaces)
            && (forall m | m != n && m in c.namespaces :: c'.namespaces[m] == c.namespaces[m])
            && (forall m | m != n :: m in c'.bindings <==> m in c.bindings)
            && (forall m | m != n && m in c.bindings :: c'.bindings[m] == c.bindings[m])
            && c'.classes == c.classes
    ensures Inv(setup, path[i])
  {
    hide Inv, PassStep, U.IsManagedBy;
    PassStates(setup, n, path, i);
    if i > 0 {
      NonInterference(setup, n, path, i - 1);
      PassStates(setup, n, path, i - 1);
      assert PassStep(setup, path[i - 1], path[i - 1 + 1]);
      PassStepActive(setup, path[i - 1], path[i]);
      NamedOf(setup, path[0], n);
      var before, after := path[i - 1], path[i];
      forall id | id in before.c.store.objects
                  && !U.IsManagedBy(before.c.store.objects[id], before.phase.ns.meta.uid)
        ensures id in after.c.store.objects && after.c.store.objects[id] == before.c.store.objects[id]
      {
        StepKeepsUnmanaged(setup, before, after, id);
      }
      StepKeepsClasses(setup, before, after);
      forall m | m != n
        ensures m in after.c.namespaces <==> m in before.c.namespaces
        ensures m in before.c.namespaces ==> after.c.namespaces[m] == before.c.namespaces[m]
        ensures m in after.c.bindings <==> m in before.c.bindings
        ensures m in before.c.bindings ==> after.c.bindings[m] == before.c.bindings[m]
      {
        StepKeepsOthers(setup, before, after, m);
      }
    }
  }

  lemma NamedOf(setup: Setup, s: Config, n: string)
    requires Inv(setup, s) && n in s.c.namespaces
    ensures s.c.namespaces[n].meta.name == n
  {
    hide Covered, PhaseOk;
  }

  /** The same, read off the objects: at every point of a pass an object is unchanged that is not labelled as
      managed, or not annotated with the UID of the namespace the pass is for. */
  lemma LeavesUnownedAlone(setup: Setup, n: string, path: seq<Config>, i: nat, id: ObjectId)
    requires IsPass(setup, n, path) && Inv(setup, path[0]) && i < |path|
    requires id in path[0].c.store.objects
    requires var o := path[0].c.store.objects[id];
             || U.Text(o, "labels", "namespaceclass.akuity.io/managed") != "true"
             || U.Text(o, "annotations", "namespaceclass.akuity.io/owner-namespace-uid")
                != path[0].c.namespaces[n].meta.uid
    ensures id in path[i].c.store.objects && path[i].c.store.objects[id] == path[0].c.store.objects[id]
  {
    hide Inv, PassStep, U.IsManagedBy, U.Text;
    U.OwnedExactly(path[0].c.store.objects[id], path[0].c.namespaces[n].meta.uid);
    NonInterference(setup, n, path, i);
  }

  /** What was sent for one namespace no pass for a namespace with another UID overwrites or deletes. */
  lemma LeavesOthersObjects(setup: Setup, n: string, path: seq<Config>, i: nat, id: ObjectId,
                            sender: Setup, meta: Meta, className: string, raw: RawResource)
    requires IsPass(setup, n, path) && Inv(setup, path[0]) && i < |path|
    requires Shaped(sender, meta, className, raw).Success? && meta.uid != path[0].c.namespaces[n].meta.uid
    requires id in path[0].c.store.objects
    requires path[0].c.store.objects[id] == Shaped(sender, meta, className, raw).value.content
    ensures id in path[i].c.store.objects && path[i].c.store.objects[id] == path[0].c.store.objects[id]
  {
    hide Inv, PassStep, U.Text, Shaped, IsPass;
    ShapedMarkers(sender, meta, className, raw);
    LeavesUnownedAlone(setup, n, path, i, id);
  }

  // ----- Other controllers' finalizers -----

  /** The finalizers that are not the controller's own, in order and as often as they occur. */
  function OthersOf(finalizers: seq<string>): seq<string> {
    if finalizers == [] then []
    else if finalizers[0] == "namespaceclass.akuity.io/finalizer" then OthersOf(finalizers[1..])
    else [finalizers[0]] + OthersOf(finalizers[1..])
  }

  lemma {:induction false} OthersOfConcat(a: seq<string>, b: seq<string>)
    ensures OthersOf(a + b) == OthersOf(a) + OthersOf(b)
  {
    if a == [] {
      assert a + b == b;
    } else {
      assert (a + b)[1..] == a[1..] + b;
      OthersOfConcat(a[1..], b);
    }
  }

  /** Removing the controller's finalizer leaves exactly the others. */
  lemma {:induction false} WithoutIsOthers(finalizers: seq<string>)
    ensures Without(finalizers, Finalizer) == OthersOf(finalizers)
    ensures OthersOf(Without(finalizers, Finalizer)) == OthersOf(finalizers)
  {
    if finalizers != [] {
      var m := |finalizers| - 1;
      WithoutIsOthers(finalizers[..m]);
      assert finalizers == finalizers[..m] + [finalizers[m]];
      OthersOfConcat(finalizers[..m], [finalizers[m]]);
      OthersOfConcat(Without(finalizers[..m], Finalizer), if finalizers[m] != Finalizer then [finalizers[m]] else []);
    }
  }

  lemma WithFinalizerKeepsOthers(ns: Namespace)
    ensures OthersOf(WithFinalizer(ns).finalizers) == OthersOf(ns.finalizers)
  {
    OthersOfConcat(ns.finalizers, [Finalizer]);
  }

  lemma PassWritesFinalizers(setup: Setup, s: Config, s': Config)
    requires PassStep(setup, s, s')
    ensures var ns := s.phase.ns;
            || s'.c.namespaces == s.c.namespaces
            || s'.c.namespaces == s.c.namespaces[ns.meta.name := WithFinalizer(ns)]
            || s'.c.namespaces == s.c.namespaces[ns.meta.name := WithoutFinalizer(ns)]
    ensures !s'.phase.Idle? ==> s'.phase.ns == s.phase.ns || s'.phase.ns == WithFinalizer(s.phase.ns)
  {
    hide PreparedAll, Merge, Sorted, ObjectsOf, Key, Keys, U.IsManagedBy, Recordable, BindingFor;
    hide WithFinalizer, WithoutFinalizer;
  }

  ghost predicate SameBesidesFinalizer(ns: Namespace, ns': Namespace) {
    ns'.meta == ns.meta && ns'.deleting == ns.deleting && OthersOf(ns'.finalizers) == OthersOf(ns.finalizers)
  }

  lemma StepKeepsOtherFinalizers(setup: Setup, s: Config, s': Config, n: string)
    requires PassStep(setup, s, s') && n in s.c.namespaces
    requires s.phase.ns == s.c.namespaces[n] && s.phase.ns.meta.name == n
    ensures n in s'.c.namespaces && SameBesidesFinalizer(s.c.namespaces[n], s'.c.namespaces[n])
    ensures !s'.phase.Idle? ==> s'.phase.ns == s'.c.namespaces[n]
  {
    hide OthersOf, Without;
    PassWritesFinalizers(setup, s, s');
    WithFinalizerKeepsOthers(s.phase.ns);
    WithoutIsOthers(s.phase.ns.finalizers);
  }

  /** A pass keeps the finalizers other controllers put on the namespace, in order and number, at every point;
      of the namespace it writes nothing but its own finalizer. */
  lemma {:induction false} KeepsOtherFinalizers(setup: Setup, n: string, path: seq<Config>, i: nat)
    requires IsPass(setup, n, path) && Inv(setup, path[0]) && i < |path|
    ensures n in path[i].c.namespaces
    ensures var ns, ns' := path[0].c.namespaces[n], path[i].c.namespaces[n];
            ns'.meta == ns.meta && ns'.deleting == ns.deleting && OthersOf(ns'.finalizers) == OthersOf(ns.finalizers)
    ensures !path[i].phase.Idle? ==> path[i].phase.ns == path[i].c.namespaces[n]
  {
    hide Inv, PassStep, OthersOf;
    NamedOf(setup, path[0], n);
    if i > 0 {
      KeepsOtherFinalizers(setup, n, path, i - 1);
      assert PassStep(setup, path[i - 1], path[i - 1 + 1]);
      PassStepActive(setup, path[i - 1], path[i]);
      StepKeepsOtherFinalizers(setup, path[i - 1], path[i], n);
    }
  }

  // ----- The class a pass holds -----

  function HeldClass(phase: Phase): Option<NamespaceClass> {
    match phase
    case ClassRead(_, found) => found
    case Guarded(_, found) => found
    case Bound(_, found, _) => found
    case Applying(_, _, cls, _, _, _) => Some(cls)
    case Deleting(_, _, Stale(cls, _, _), _, _, _, _) => Some(cls)
    case _ => None
  }

  /** The class a pass reads is the one its namespace names in its label; a pass over a namespace that is not
      being deleted reads one, unless there is no label or the first call fails. */
  lemma ReadsLabelledClass(setup: Setup, n: string, path: seq<Config>)
    requires IsPass(setup, n, path) && |path| > 1 && path[1] != Abort(path[0])
    ensures var c, ns := path[0].c, path[0].c.namespaces[n];
            var key := "namespaceclass.akuity.io/name";
            if !ns.deleting && key in ns.meta.labels && ns.meta.labels[key] != "" then
              var name := ns.meta.labels[key];
              path[1].phase == ClassRead(ns, if name in c.classes then Some(c.classes[name]) else None)
            else
              !path[1].phase.ClassRead?
  {
    hide ClusterScoped;
    assert PassStep(setup, path[0], path[0 + 1]);
  }

  /** What a pass claims in its loops is desired by the class it holds. */
  lemma ClaimsAreDesired(setup: Setup, s: Config) returns (resources: seq<Prepared>)
    requires Inv(setup, s) && (s.phase.Applying? || (s.phase.Deleting? && s.phase.why.Stale?))
    ensures Desires(setup, s.phase.ns.meta, HeldClass(s.phase).value, resources)
    ensures Claimed(s.phase) <= ObjectsOf(Refs(resources))
  {
    hide ClusterInv, Covered, Desires, WellPrepared, Recordable, Foreign, Canonical, ObjectOf;
    if s.phase.Applying? {
      resources := s.phase.resources;
      forall id | id in Claimed(s.phase)
        ensures id in ObjectsOf(Refs(resources))
      {
        PrefixObjects(resources, s.phase.k, id);
      }
    } else {
      resources := s.phase.why.resources;
    }
  }

  /** An outcome is recorded after the gate closes or a loop ends, with the claims the loop had. */
  lemma StartsRecording(setup: Setup, s: Config, s': Config)
    requires PassStep(setup, s, s') && s'.phase.Recording?
    ensures s.phase.Bound? || s.phase.Applying? || s.phase.Deleting?
    ensures s'.c == s.c && s'.phase.ns == s.phase.ns && (s'.phase.claimed == {} || s'.phase.claimed == Claimed(s.phase))
    ensures s'.phase.claimed != {} ==> s.phase.Applying? || (s.phase.Deleting? && s.phase.why.Stale?)
    ensures s'.phase.binding.status.condition.Some?
    ensures s'.phase.binding.status.condition.value.observedGeneration == s'.phase.binding.generation
    ensures ReportsReady(s'.phase.binding) ==>
              s.phase.Deleting? && s.phase.i == |s.phase.todo| && s.phase.why.Stale?
              && s'.phase.binding == Succeeded(s.phase.binding, s.phase.ns.meta.uid, s.phase.why.cls, s.phase.keep)
  {
    hide PreparedAll, Merge, Sorted, ObjectsOf, ClusterScoped, Key, Keys, U.IsManagedBy, Recordable, BindingFor;
  }

  /** A step that succeeds loses nothing, and leaves the owners of what was lost before. */
  lemma NextLosesNothing(setup: Setup, s: Config, id: ObjectId)
    requires InBounds(s.phase) && id in Next(setup, s).c.store.pending && id in Next(setup, s).c.store.applied
    ensures id in s.c.store.pending && id in s.c.store.applied
    ensures Next(setup, s).c.store.applied[id] == s.c.store.applied[id]
  {
    hide PreparedAll, Merge, Sorted, ObjectsOf, ClusterScoped, Key, Keys, U.IsManagedBy, Recordable, BindingFor;
  }

  // ----- The order of writes in a pass that found its class -----

  function PreviousInventory(c: Cluster, n: string): seq<ResourceRef> {
    if n in c.bindings then c.bindings[n].status.inventory else []
  }

  /** Where a pass can be that read cls, started from cluster c0, and has not recorded its outcome. */
  ghost predicate OnTrack(c0: Cluster, cls: NamespaceClass, s: Config) {
    match s.phase
    case ClassRead(_, found) => found == Some(cls) && s.c.store == c0.store && s.c.bindings == c0.bindings
    case Guarded(_, found) => found == Some(cls) && s.c.store == c0.store && s.c.bindings == c0.bindings
    case Bound(ns, found, b) =>
      found == Some(cls) && s.c.store == c0.store && b.status.inventory == PreviousInventory(c0, ns.meta.name)
    case Applying(ns, b, cls', _, _, start) =>
      cls' == cls && start == c0.store && b.status.inventory == PreviousInventory(c0, ns.meta.name)
    case Deleting(ns, b, why, _, _, _, _) =>
      && why.Stale? && why.cls == cls && why.base == c0.store
      && b.status.inventory == PreviousInventory(c0, ns.meta.name)
    case Recording(_, _, _, _) => true
    case Idle => true
    case _ => false
  }

  lemma StepStaysOnTrack(setup: Setup, c0: Cluster, cls: NamespaceClass, s: Config, s': Config)
    requires PassStep(setup, s, s') && OnTrack(c0, cls, s)
    ensures OnTrack(c0, cls, s')
  {
    hide PreparedAll, Merge, Sorted, ObjectsOf, ClusterScoped, Key, Keys, U.IsManagedBy, Recordable;
  }

  lemma {:induction false} PassOnTrack(setup: Setup, n: string, path: seq<Config>, cls: NamespaceClass, i: nat)
    requires IsPass(setup, n, path) && 1 <= i < |path|
    requires path[1].phase.ClassRead? && path[1].phase.found == Some(cls)
    ensures OnTrack(path[0].c, cls, path[i])
  {
    hide PassStep;
    if i == 1 {
      assert PassStep(setup, path[0], path[0 + 1]);
      FirstStep(setup, path[0], path[1]);
    } else {
      PassOnTrack(setup, n, path, cls, i - 1);
      assert PassStep(setup, path[i - 1], path[i - 1 + 1]);
      StepStaysOnTrack(setup, path[0].c, cls, path[i - 1], path[i]);
    }
  }

  lemma FirstStep(setup: Setup, s: Config, s': Config)
    requires PassStep(setup, s, s') && s.phase.NamespaceRead? && !s'.phase.Idle?
    ensures s'.c == s.c
  {
  }

  lemma {:induction false} ApplyAllAdds(store: Store, uid: string, resources: seq<Prepared>)
    ensures ApplyAll(store, uid, resources).objects.Keys == store.objects.Keys + ObjectsOf(Refs(resources))
    ensures forall id | id in store.objects && id !in ObjectsOf(Refs(resources)) ::
              ApplyAll(store, uid, resources).objects[id] == store.objects[id]
  {
    hide ObjectOf;
    if resources != [] {
      var n := |resources| - 1;
      ApplyAllAdds(store, uid, resources[..n]);
      assert Refs(resources) == Refs(resources[..n]) + [resources[n].ref];
      if ObjectOf(resources[n].ref).Some? {
        ObjectsOfSnoc(Refs(resources[..n]), resources[n].ref);
      } else {
        ObjectsOfSkip(Refs(resources[..n]), resources[n].ref);
      }
    }
  }

  lemma ObjectsOfSkip(refs: seq<ResourceRef>, r: ResourceRef)
    requires ObjectOf(r).None?
    ensures ObjectsOf(refs + [r]) == ObjectsOf(refs)
  {
    hide ObjectOf;
    forall x | x in refs
      ensures x in refs + [r]
    {
    }
  }

  /** Apply before delete: when a pass that found its class removes an object, every desired object has been
      applied, on top of the store the pass started from. */
  lemma ApplyBeforeDelete(setup: Setup, n: string, path: seq<Config>, cls: NamespaceClass, i: nat, id: ObjectId)
    returns (resources: seq<Prepared>)
    requires IsPass(setup, n, path) && Inv(setup, path[0]) && 1 <= i < |path| - 1
    requires path[1].phase.ClassRead? && path[1].phase.found == Some(cls)
    requires id in path[i].c.store.objects && id !in path[i + 1].c.store.objects
    ensures Desires(setup, path[0].c.namespaces[n].meta, cls, resources)
    ensures var c0, phase := path[0].c, path[i].phase;
            && phase.Deleting?
            && phase.start == ApplyAll(c0.store, c0.namespaces[n].meta.uid, resources)
            && phase.start.objects.Keys == c0.store.objects.Keys + ObjectsOf(Refs(resources))
            && path[i].c.store == phase.start.Remove(StaleObjects(phase.todo[..phase.i], phase.keep))
  {
    hide ClusterInv, PassStep, Desires, Covered, Sorted, StaleObjects, WellPrepared, Recordable, ApplyAll, Canonical;
    PassOnTrack(setup, n, path, cls, i);
    PassStates(setup, n, path, i);
    assert PassStep(setup, path[i], path[i + 1]);
    if path[i].phase.Applying? {
      ApplyTouchesOne(setup, path[i], path[i + 1]);
    } else if !path[i].phase.Deleting? {
      PassStepActive(setup, path[i], path[i + 1]);
      OnlyLoopsTouchObjects(setup, path[i], path[i + 1]);
    }
    resources := path[i].phase.why.resources;
    ApplyAllAdds(path[0].c.store, path[0].c.namespaces[n].meta.uid, resources);
  }

  /** If applying stops at index k, exactly the first k desired objects have been applied, no object is
      gone, and what is recorded is the previous inventory and the first k references. */
  lemma ApplyStopsAtK(setup: Setup, n: string, path: seq<Config>, cls: NamespaceClass, i: nat, reason: Reason)
    requires IsPass(setup, n, path) && Inv(setup, path[0]) && 1 <= i < |path| - 1
    requires path[1].phase.ClassRead? && path[1].phase.found == Some(cls)
    requires path[i].phase.Applying? && InBounds(path[i].phase) && path[i + 1] == ApplyFailure(path[i], reason)
    ensures var c0, k, resources := path[0].c, path[i].phase.k, path[i].phase.resources;
            && Desires(setup, c0.namespaces[n].meta, cls, resources) && k <= |resources|
            && path[i + 1].c.store == ApplyAll(c0.store, c0.namespaces[n].meta.uid, resources[..k])
            && c0.store.objects.Keys <= path[i + 1].c.store.objects.Keys
            && Keys(path[i + 1].phase.binding.status.inventory)
               == Keys(PreviousInventory(c0, n)) + Keys(Refs(resources[..k]))
            && ObjectsOf(path[i + 1].phase.binding.status.inventory)
               == ObjectsOf(PreviousInventory(c0, n)) + ObjectsOf(Refs(resources[..k]))
  {
    hide ClusterInv, PassStep, Desires, Covered, Sorted, WellPrepared, Recordable, Canonical, Keys, Merge, ObjectsOf;
    var s := path[i];
    PassOnTrack(setup, n, path, cls, i);
    PassStates(setup, n, path, i);
    NamedOf(setup, path[0], n);
    var done := s.phase.resources[..s.phase.k];
    ApplyAllAdds(path[0].c.store, path[0].c.namespaces[n].meta.uid, done);
    MergeIsUnion(s.phase.binding.status.inventory, Refs(done));
    StoredBinding(setup, s, s.phase.binding);
    AppliedPrefix(setup, s);
    MergedInventory(n, s.phase.binding.status.inventory, Refs(done));
  }

  /** A template that cannot be prepared stops the pass before any managed object is touched: the recorded
      inventory is the previous one, and the reason is that of the first template with a problem. */
  lemma ClosedGate(setup: Setup, n: string, path: seq<Config>, cls: NamespaceClass, i: nat, broken: nat)
    returns (first: nat)
    requires IsPass(setup, n, path) && Inv(setup, path[0]) && 1 <= i < |path| - 1
    requires path[1].phase.ClassRead? && path[1].phase.found == Some(cls)
    requires path[i].phase.Bound? && path[i].phase.found.Some? && path[i + 1] == AfterPrepare(setup, path[i], broken)
    requires !path[i + 1].phase.Applying?
    ensures path[i + 1].c.store == path[0].c.store
    ensures path[i + 1].phase.Recording?
    ensures path[i + 1].phase.binding.status.inventory == PreviousInventory(path[0].c, n)
    ensures first < |cls.resources|
    ensures var meta, objects := path[0].c.namespaces[n].meta, path[0].c.store.objects;
            && path[i + 1].phase.binding.status.condition.Some?
            && !path[i + 1].phase.binding.status.condition.value.ready
            && Problem(setup, meta, cls, objects, broken, first)
               == Some(path[i + 1].phase.binding.status.condition.value.reason)
            && forall j | 0 <= j < first :: Problem(setup, meta, cls, objects, broken, j).None?
  {
    hide ClusterInv, PassStep, PreparedAll, Covered, Sorted, WellPrepared, Canonical, Merge, Problem, Shaped;
    var s := path[i];
    PassOnTrack(setup, n, path, cls, i);
    PassStates(setup, n, path, i);
    NamedOf(setup, path[0], n);
    PrepareGate(setup, s.phase.ns.meta, cls, s.c.store.objects, broken);
    StoredBinding(setup, s, s.phase.binding);
    MergeIdempotent(s.phase.binding.status.inventory);
    var reason := PreparedAll(setup, s.phase.ns.meta, cls, s.c.store.objects, broken).error;
    first :| 0 <= first < |cls.resources|
             && Problem(setup, s.phase.ns.meta, cls, s.c.store.objects, broken, first) == Some(reason)
             && forall j | 0 <= j < first :: Problem(setup, s.phase.ns.meta, cls, s.c.store.objects, broken, j).None?;
  }

  // ----- Cleanup passes -----

  /** The pass does not serve a class: it cleans up or does nothing. */
  predicate CleanupPhase(phase: Phase) {
    match phase
    case ClassRead(_, found) => found.None?
    case Guarded(_, found) => found.None?
    case Bound(_, found, _) => found.None?
    case Applying(_, _, _, _, _, _) => false
    case _ => true
  }

  lemma CleanupStep(setup: Setup, s: Config, s': Config)
    requires PassStep(setup, s, s') && CleanupPhase(s.phase) && !s.phase.NamespaceRead?
    ensures CleanupPhase(s'.phase) && !s'.phase.NamespaceRead?
    ensures s'.c.store.objects.Keys <= s.c.store.objects.Keys
    ensures forall id | id in s'.c.store.objects :: s'.c.store.objects[id] == s.c.store.objects[id]
  {
    hide PreparedAll, Merge, Sorted, ObjectsOf, ClusterScoped, Key, Keys, U.IsManagedBy, Recordable, BindingFor;
  }

  /** A cleanup pass, failed or not, only ever removes objects. */
  lemma {:induction false} CleanupOnlyRemoves(setup: Setup, n: string, path: seq<Config>, i: nat)
    requires IsPass(setup, n, path) && 1 <= i < |path|
    requires CleanupPhase(path[1].phase)
    ensures CleanupPhase(path[i].phase) && !path[i].phase.NamespaceRead?
    ensures path[i].c.store.objects.Keys <= path[0].c.store.objects.Keys
    ensures forall id | id in path[i].c.store.objects :: path[i].c.store.objects[id] == path[0].c.store.objects[id]
  {
    hide PassStep, CleanupPhase;
    if i == 1 {
      assert PassStep(setup, path[0], path[0 + 1]);
      ReadTouchesNothing(setup, path[0], path[1]);
    } else {
      CleanupOnlyRemoves(setup, n, path, i - 1);
      assert PassStep(setup, path[i - 1], path[i - 1 + 1]);
      CleanupStep(setup, path[i - 1], path[i]);
    }
  }

  lemma ReadTouchesNothing(setup: Setup, s: Config, s': Config)
    requires PassStep(setup, s, s') && s.phase.NamespaceRead?
    ensures s'.c.store.objects == s.c.store.objects && !s'.phase.NamespaceRead?
  {
  }

  /** The pass works on the belief that the class is missing. */
  predicate BelievesMissing(phase: Phase) {
    match phase
    case ClassRead(_, found) => found.None?
    case Guarded(_, found) => found.None?
    case Bound(_, found, _) => found.None?
    case Deleting(_, _, why, _, _, _, _) => why.ClassGone?
    case _ => false
  }

  lemma BeliefsComeFromReads(setup: Setup, s: Config, s': Config)
    requires PassStep(setup, s, s') && BelievesMissing(s'.phase)
    ensures if s.phase.NamespaceRead? then
              s.phase.ns.ClassName() !in s.c.classes && s.phase.ns.ClassName() != "" && !s.phase.ns.deleting
            else BelievesMissing(s.phase)
  {
    hide PreparedAll, Merge, Sorted, ObjectsOf, ClusterScoped, Key, Keys, U.IsManagedBy, Recordable, BindingFor;
  }

  /** Only a read that found the class missing leads to a cleanup for a missing class; a read that failed
      never does. */
  lemma {:induction false} CleanupNeedsNotFound(setup: Setup, n: string, path: seq<Config>, i: nat)
    requires IsPass(setup, n, path) && i < |path| && BelievesMissing(path[i].phase)
    ensures var ns := path[0].c.namespaces[n];
            !ns.deleting && ns.ClassName() != "" && ns.ClassName() !in path[0].c.classes
  {
    hide PassStep;
    if i > 0 {
      assert PassStep(setup, path[i - 1], path[i - 1 + 1]);
      BeliefsComeFromReads(setup, path[i - 1], path[i]);
      if path[i - 1].phase.NamespaceRead? {
        ReadsComeFirst(setup, n, path, i - 1);
      } else {
        CleanupNeedsNotFound(setup, n, path, i - 1);
      }
    }
  }

  /** The namespace is read once, at the start. */
  lemma ReadsComeFirst(setup: Setup, n: string, path: seq<Config>, i: nat)
    requires IsPass(setup, n, path) && i < |path| && path[i].phase.NamespaceRead?
    ensures i == 0
  {
    hide PassStep;
    if i > 0 {
      assert PassStep(setup, path[i - 1], path[i - 1 + 1]);
      NeverReadsAgain(setup, path[i - 1], path[i]);
    }
  }

  lemma NeverReadsAgain(setup: Setup, s: Config, s': Config)
    requires PassStep(setup, s, s')
    ensures !s'.phase.NamespaceRead?
  {
    hide PreparedAll, Merge, Sorted, ObjectsOf, ClusterScoped, Key, Keys, U.IsManagedBy, Recordable, BindingFor;
  }
}
