/** Where the guarantees end: exactly what a lost record costs, what a version bump does, and a run that gets
    there. */
module Limits {
  import opened Wrappers
  import opened ResourceRefs
  import opened Cluster
  import opened Prepare
  import opened Machine
  import opened Invariants
  import opened Steps
  import opened Safety
  import opened Convergence
  import opened History
  import U = Unstructured

  // ----- Passes cut off before they record -----

  /** A pass that ends early keeps the inventory complete exactly when everything it has applied was in the
      inventory already. */
  lemma AbortLosesExactly(setup: Setup, s: Config)
    requires Inv(setup, s) && !s.phase.Idle?
    requires forall id | Owns(s.c, s.phase.ns.meta.name, id) :: id !in s.c.store.pending
    ensures var n := s.phase.ns.meta.name;
            FullyCovered(Abort(s).c, n) <==>
            forall id | id in Claimed(s.phase) && id in s.c.store.applied && Relevant(s.phase.ns, id) ::
              id in Recorded(s.c, n)
  {
    hide ClusterInv, Claimed, Recorded;
    var n, c, c' := s.phase.ns.meta.name, s.c, Abort(s).c;
    ClaimedOwned(setup, s);
    assert c.namespaces[n] == s.phase.ns;
    assert Recorded(c', n) == Recorded(c, n) by { SameRecords(s.c, Abort(s).c); }
    forall id
      ensures Owns(c', n, id) <==> Owns(c, n, id)
      ensures id in Claimed(s.phase) && id in c.store.applied ==> Owns(c, n, id)
      ensures Owns(c, n, id) && Relevant(s.phase.ns, id) ==> id in Recorded(c, n) || id in Claimed(s.phase)
    {
    }
    forall id | Owns(c', n, id) && Relevant(c'.namespaces[n], id)
      ensures id in c.store.applied
    {
    }
  }

  // ----- Runs step by step -----

  ghost predicate IsChain(setup: Setup, path: seq<Config>) {
    path != [] && forall i | 0 <= i < |path| - 1 :: Step(setup, path[i], path[i + 1])
  }

  lemma RunExtends(setup: Setup, run: seq<Config>, path: seq<Config>)
    requires IsRun(setup, run) && IsChain(setup, path) && path[0] == run[|run| - 1]
    ensures IsRun(setup, run + path[1..])
  {
    hide Step, Init;
    var longer := run + path[1..];
    forall i | 0 <= i < |longer| - 1
      ensures Step(setup, longer[i], longer[i + 1])
    {
      if i < |run| - 1 {
        assert Step(setup, run[i], run[i + 1]);
      } else {
        var j := i - (|run| - 1);
        assert longer[i] == path[j] && longer[i + 1] == path[j + 1];
        assert Step(setup, path[j], path[j + 1]);
      }
    }
  }

  lemma NextIsStep(setup: Setup, s: Config)
    requires InBounds(s.phase) && !s.phase.Idle?
    ensures Step(setup, s, Next(setup, s))
  {
    hide Next;
  }

  lemma AbortIsStep(setup: Setup, s: Config)
    requires InBounds(s.phase) && !s.phase.Idle?
    ensures Step(setup, s, Abort(s))
  {
    hide Next, Abort;
  }

  /** A pass that finds its class, as far as the binding. */
  lemma Opening(setup: Setup, c: Cluster, n: string, cls: NamespaceClass) returns (path: seq<Config>)
    requires Serves(c, n, cls) && c.namespaces[n].meta.name == n
    ensures IsChain(setup, path) && |path| == 5
    ensures path[0] == Config(c, Idle) && path[4] == BoundState(c, n, cls)
    ensures forall j | 0 <= j < 5 :: path[j].phase.ClassRead? ==>
              path[j].phase.found == Some(cls) && path[j].phase.ns == c.namespaces[n]
  {
    hide Step, BindingFor, PreparedAll;
    var s0 := Config(c, Idle);
    var s1 := Begin(s0, n);
    var s2 := Next(setup, s1);
    var s3 := Next(setup, s2);
    var s4 := Next(setup, s3);
    assert Step(setup, s0, s1) by { BeginIsStep(setup, s0, n); }
    NextIsStep(setup, s1);
    NextIsStep(setup, s2);
    NextIsStep(setup, s3);
    BindingForFrame(c, s3.c, Guarding(c.namespaces[n]));
    assert c.namespaces[n := c.namespaces[n]] == c.namespaces;
    path := [s0, s1, s2, s3, s4];
  }

  lemma BeginIsStep(setup: Setup, s: Config, n: string)
    requires s.phase.Idle?
    ensures Step(setup, s, Begin(s, n))
  {
  }

  // ----- A loss -----

  /** Such a loss can happen from any untouched cluster with one template to apply: the hypothesis of strong
      coverage, that every pass that applied something gets to write its status, cannot be dropped. */
  lemma LossIsReachable(setup: Setup, c: Cluster, n: string, cls: NamespaceClass, p: Prepared)
    returns (run: seq<Config>)
    requires Init(Config(c, Idle)) && Serves(c, n, cls)
    requires PreparedAll(setup, c.namespaces[n].meta, cls, c.store.objects, |cls.resources|) == Success([p])
    requires Recordable(p.ref)
    ensures IsRun(setup, run) && run[0] == Config(c, Idle)
    ensures var s := run[|run| - 1];
            && s.phase.Idle? && !FullyCovered(s.c, n)
            && Owns(s.c, n, ObjectOf(p.ref).value) && ObjectOf(p.ref).value in s.c.store.pending
            && s.c.namespaces == c.namespaces[n := Guarding(c.namespaces[n])]
            && s.c.classes == c.classes && n in s.c.bindings && s.c.bindings[n].status == EmptyStatus
  {
    hide Step, PreparedAll, Recorded;
    var path := Opening(setup, c, n, cls);
    var s4 := path[4];
    var s5 := Next(setup, s4);
    assert s5 == LoopState(c, n, cls, [p]) by { OpensLoop(setup, c, n, cls, [p]); }
    var s6, s7 := LossStep(setup, c, n, cls, p);
    NextIsStep(setup, s4);
    var loop, tail := [s5, s6, s7], [s4, s5, s6, s7];
    assert Step(setup, loop[0], loop[0 + 1]) && Step(setup, loop[1], loop[1 + 1]);
    run := [Config(c, Idle)];
    RunExtends(setup, run, path);
    RunExtends(setup, run + path[1..], tail);
    run := run + path[1..] + tail[1..];
    NothingRecordedYet(s7.c, n);
  }

  lemma OpensLoop(setup: Setup, c: Cluster, n: string, cls: NamespaceClass, resources: seq<Prepared>)
    requires Serves(c, n, cls)
    requires PreparedAll(setup, c.namespaces[n].meta, cls, c.store.objects, |cls.resources|) == Success(resources)
    ensures Next(setup, BoundState(c, n, cls)) == LoopState(c, n, cls, resources)
  {
    hide PreparedAll, BindingFor;
  }

  lemma LossStep(setup: Setup, c: Cluster, n: string, cls: NamespaceClass, p: Prepared) returns (s6: Config, s7: Config)
    requires Init(Config(c, Idle)) && Serves(c, n, cls) && Recordable(p.ref)
    ensures IsChain(setup, [LoopState(c, n, cls, [p]), s6, s7])
    ensures s7.phase.Idle? && s7.c.namespaces == c.namespaces[n := Guarding(c.namespaces[n])]
    ensures s7.c.classes == c.classes && n in s7.c.bindings && s7.c.bindings[n].status == EmptyStatus
    ensures Owns(s7.c, n, ObjectOf(p.ref).value) && ObjectOf(p.ref).value in s7.c.store.pending
  {
    hide Step, ObjectOf, SlashFreeParts, Merge, Sorted, Key, Keys;
    var s5 := LoopState(c, n, cls, [p]);
    s6 := Next(setup, s5);
    s7 := Abort(s6);
    NextIsStep(setup, s5);
    AbortIsStep(setup, s6);
    var id := ObjectOf(p.ref).value;
    assert [p][..1] == [p] && Refs([p]) == [p.ref];
    assert id in Claimed(s6.phase);
    NothingRecordedYet(s6.c, n);
  }

  lemma NothingRecordedYet(c: Cluster, n: string)
    requires n in c.bindings && c.bindings[n].status == EmptyStatus
    ensures Recorded(c, n) == {}
  {
    NoObjects();
  }

  /** The loss is not bounded by what has been read since the last recorded write, nor by what the pass that
      made this write had read: after the loss the namespace asks for another class, which desires nothing,
      and a pass for that class records its success. */
  lemma LossOutlivesReads(setup: Setup, run: seq<Config>, n: string, other: NamespaceClass, asked: Meta, id: ObjectId)
    returns (longer: seq<Config>)
    requires IsRun(setup, run) && run[|run| - 1].phase.Idle?
    requires var c := run[|run| - 1].c;
             && Owns(c, n, id) && id in c.store.pending && n in c.bindings && c.bindings[n].status == EmptyStatus
             && !c.namespaces[n].deleting && asked.name == n && asked.uid == c.namespaces[n].meta.uid
             && U.Lookup(asked.labels, ClassLabelKey) == other.name && other.name != ""
             && other.name in c.classes && c.classes[other.name] == other && other.resources == []
    ensures run < longer && |longer| > |run| + 1 && IsRun(setup, longer)
    ensures var s, before := longer[|longer| - 1], longer[|longer| - 2];
            && before.phase.Recording? && s == AfterRecording(before) && s.phase.Idle?
            && Owns(s.c, n, id) && id !in Recorded(s.c, n)
            && n in s.c.bindings && ReportsReady(s.c.bindings[n]) && s.c.bindings[n].className == other.name
    ensures forall j, meta, cls, resources | |run| <= j < |longer| && ReadsClass(longer[j], meta, cls)
                                             && Desires(setup, meta, cls, resources) ::
              cls == other && id !in ObjectsOf(Refs(resources))
  {
    hide Step, Desires, Guarding, BindingFor, Recorded, Inv, Init;
    var s0 := run[|run| - 1];
    RunKeepsInv(setup, run);
    NamedOf(setup, s0, n);
    var ns := s0.c.namespaces[n].(meta := asked);
    var s1 := s0.(c := Do(s0.c, EditNamespace(ns)));
    assert Step(setup, s0, s1) by { EditIsStep(setup, s0, ns); }
    RunExtends(setup, run, [s0, s1]);
    assert run + [s0, s1][1..] == run + [s1];
    var path := Opening(setup, s1.c, n, other);
    RunExtends(setup, run + [s1], path);
    var tail := EmptyPass(setup, s1.c, n, other);
    RunExtends(setup, run + [s1] + path[1..], tail);
    longer := run + [s1] + path[1..] + tail[1..];
    StillOwned(s0.c, s1.c, longer[|longer| - 1].c, n, id);
    forall j | |run| <= j < |longer|
      ensures longer[j].phase.ClassRead? ==> longer[j].phase.found == Some(other)
    {
      if j == |run| {
        assert longer[j] == s1;
      } else if j < |run| + 5 {
        assert longer[j] == path[j - |run|];
      } else {
        assert longer[j] == tail[j - |run| - 4];
      }
    }
    forall meta, resources | Desires(setup, meta, other, resources)
      ensures id !in ObjectsOf(Refs(resources))
    {
      NothingDesired(setup, meta, other, resources);
    }
  }

  lemma EditIsStep(setup: Setup, s: Config, ns: Namespace)
    requires Allowed(s, EditNamespace(ns))
    ensures Step(setup, s, s.(c := Do(s.c, EditNamespace(ns))))
  {
  }

  lemma NothingDesired(setup: Setup, meta: Meta, cls: NamespaceClass, resources: seq<Prepared>)
    requires Desires(setup, meta, cls, resources) && cls.resources == []
    ensures ObjectsOf(Refs(resources)) == {}
  {
    hide Shaped;
  }

  lemma StillOwned(c: Cluster, c1: Cluster, c2: Cluster, n: string, id: ObjectId)
    requires Owns(c, n, id) && n in c1.namespaces && c1.namespaces[n].meta.uid == c.namespaces[n].meta.uid
    requires n in c2.namespaces && c2.namespaces[n].meta == c1.namespaces[n].meta && c2.store == c.store
    ensures Owns(c2, n, id)
  {
  }

  /** A pass for a class without templates, from the binding on, when nothing is recorded. */
  lemma EmptyPass(setup: Setup, c: Cluster, n: string, cls: NamespaceClass) returns (tail: seq<Config>)
    requires Serves(c, n, cls) && c.namespaces[n].meta.name == n && cls.resources == []
    requires n in c.bindings && c.bindings[n].status == EmptyStatus
    ensures IsChain(setup, tail) && |tail| == 5 && tail[0] == BoundState(c, n, cls)
    ensures forall j | 0 <= j < 5 :: !tail[j].phase.ClassRead?
    ensures tail[3].phase.Recording? && tail[4] == AfterRecording(tail[3]) && tail[4].phase.Idle?
    ensures var c' := tail[4].c;
            && c'.store == c.store && n in c'.namespaces && c'.namespaces[n].meta == c.namespaces[n].meta
            && n in c'.bindings && ReportsReady(c'.bindings[n])
            && c'.bindings[n].className == c.namespaces[n].ClassName() && Recorded(c', n) == {}
  {
    hide Step, Merge, Key, Keys, ObjectOf, Shaped;
    var s4 := BoundState(c, n, cls);
    assert PreparedAll(setup, c.namespaces[n].meta, cls, c.store.objects, 0) == Success([]);
    var s5 := Next(setup, s4);
    var s6 := Next(setup, s5);
    assert Sorted(Refs([])) == [];
    var s7 := Next(setup, s6);
    var s8 := Next(setup, s7);
    NextIsStep(setup, s4);
    NextIsStep(setup, s5);
    NextIsStep(setup, s6);
    NextIsStep(setup, s7);
    tail := [s4, s5, s6, s7, s8];
    NoObjects();
  }

  // ----- What can be reached -----

  lemma ReachesStep(setup: Setup, s: Config, s': Config)
    requires Reachable(setup, s) && Step(setup, s, s')
    ensures Reachable(setup, s')
  {
    hide Step, Init;
    var run :| IsRun(setup, run) && run[|run| - 1] == s;
    RunExtends(setup, run, [s, s']);
    var longer := run + [s, s'][1..];
    assert longer[|longer| - 1] == s';
  }

  lemma {:induction false} ReachesEnd(setup: Setup, s: Config)
    requires Reachable(setup, s) && InBounds(s.phase)
    ensures Reachable(setup, Drive(setup, s))
    decreases Rank(s.phase), LeftInLoop(s.phase)
  {
    hide Reachable, Step, Next;
    if !s.phase.Idle? {
      NextIsStep(setup, s);
      ReachesStep(setup, s, Next(setup, s));
      NextDescends(setup, s);
      ReachesEnd(setup, Next(setup, s));
    }
  }

  /** A pass without failing calls leads from reachable clusters to reachable ones. */
  lemma ReachesPass(setup: Setup, c: Cluster, n: string)
    requires Reachable(setup, Config(c, Idle))
    ensures Reachable(setup, Config(FaultFreePass(setup, c, n), Idle))
  {
    hide Reachable, Step, Drive;
    var s := Begin(Config(c, Idle), n);
    BeginIsStep(setup, Config(c, Idle), n);
    ReachesStep(setup, Config(c, Idle), s);
    ReachesEnd(setup, s);
  }

  // ----- Version bumps -----

  /** A class that moves a desired object to another API version: the pass applies it under the new
      version, deletes the same stored object under the old one, and reports success with an inventory that
      names an object that is gone. */
  lemma VersionBumpDeletes(setup: Setup, c: Cluster, n: string, cls: NamespaceClass, resources: seq<Prepared>,
                           r: ResourceRef, p: Prepared)
    requires Inv(setup, Config(c, Idle)) && CanSucceed(setup, c, n, cls, resources)
    requires r in PreviousInventory(c, n) && p in resources
    requires ObjectOf(r) == ObjectOf(p.ref) && ObjectOf(r).Some? && Key(r) !in Keys(Refs(resources))
    ensures var c' := FaultFreePass(setup, c, n);
            && ObjectOf(r).value !in c'.store.objects
            && n in c'.bindings && ReportsReady(c'.bindings[n])
            && p.ref in c'.bindings[n].status.inventory
    ensures !NoVersionClash(PreviousInventory(c, n), resources)
  {
    hide FaultFreePass, Inv, PreparedAll, NothingBlocks, Sorted, ApplyAll, Key, Keys, ObjectOf, Recordable;
    SuccessfulPass(setup, c, n, cls, resources);
    SortedIsCanonical(Refs(resources));
    SortedMembers(Refs(resources));
    RefsMember(resources, p);
    assert ObjectOf(r).value in StaleObjects(PreviousInventory(c, n), Sorted(Refs(resources)));
    assert ObjectOf(r).value in ObjectsOf(Refs(resources));
  }

  /** The first pass over an untouched cluster converges, whatever the class. */
  lemma FirstPassConverges(setup: Setup, c: Cluster, n: string, cls: NamespaceClass, resources: seq<Prepared>)
    requires Init(Config(c, Idle)) && Serves(c, n, cls)
    requires PreparedAll(setup, c.namespaces[n].meta, cls, c.store.objects, |cls.resources|) == Success(resources)
    requires AllRecordable(Refs(resources))
    ensures var c' := FaultFreePass(setup, c, n);
            && n in c'.bindings && ReportsReady(c'.bindings[n])
            && OwnsExactly(c', n, ObjectsOf(Refs(resources)))
  {
    hide FaultFreePass, PreparedAll, Sorted, ObjectsOf, AllRecordable, Blocks;
    InitInv(setup, Config(c, Idle));
    NothingToPrune(resources);
    Converges(setup, c, n, cls, resources);
  }

  lemma NothingToPrune(resources: seq<Prepared>)
    ensures NoVersionClash([], resources)
  {
  }
}
