/** Which passes are tried again, and which raise no event. */
module Quiescence {
  import opened Wrappers
  import opened ResourceRefs
  import opened Cluster
  import opened Prepare
  import opened Machine
  import opened Invariants
  import opened Steps
  import opened Safety
  import opened Convergence
  import opened Wakeup
  import U = Unstructured

  // ----- Errors -----

  /** The status about to be written is that of a cleanup for a deleted namespace or a missing class. */
  predicate RecordsRequiredCleanup(path: seq<Config>, i: nat)
    requires 1 <= i < |path|
  {
    && path[i].phase.Recording? && path[i - 1].phase.Deleting?
    && (path[i - 1].phase.why.NamespaceGone? || path[i - 1].phase.why.ClassGone?)
  }

  lemma RetryExactly(setup: Setup, s: Config, s': Config)
    requires PassStep(setup, s, s') && s'.phase.Recording?
    ensures s'.phase.retry <==> s.phase.Deleting? && (s.phase.why.NamespaceGone? || s.phase.why.ClassGone?)
  {
    hide PreparedAll, Merge, Sorted, ObjectsOf, ClusterScoped, Key, Keys, U.IsManagedBy, Recordable, BindingFor;
  }

  /** A pass is tried again exactly when its last step met a failed call or recorded that a required cleanup
      is blocked: never for what a template, an apply, a prune or a cleanup after the label met, once that is
      recorded. */
  lemma ErrorsExactly(setup: Setup, n: string, path: seq<Config>, i: nat)
    requires IsPass(setup, n, path) && 1 <= i < |path| && path[i].phase.Idle?
    ensures InBounds(path[i - 1].phase)
    ensures MustRetry(setup, path[i - 1], path[i])
            <==> path[i] != Next(setup, path[i - 1]) || (i >= 2 && RecordsRequiredCleanup(path, i - 1))
  {
    hide Next, Fault;
    assert PassStep(setup, path[i - 1], path[i - 1 + 1]);
    if path[i - 1].phase.Recording? {
      assert PassStep(setup, path[i - 2], path[i - 2 + 1]);
      RetryExactly(setup, path[i - 2], path[i - 1]);
    }
  }

  // ----- Silence -----

  /** The namespace carries the finalizer and its binding names its class, which exists. */
  ghost predicate Anchored(c: Cluster, n: string) {
    && n in c.namespaces && Labelled(c.namespaces[n]) && c.namespaces[n].ClassName() in c.classes
    && c.namespaces[n].HasFinalizer() && Matches(c, n)
  }

  ghost predicate SameSpecs(c: Cluster, c': Cluster) {
    && c'.namespaces == c.namespaces && c'.classes == c.classes
    && c'.bindings.Keys == c.bindings.Keys
    && forall m | m in c.bindings :: c'.bindings[m].(status := c.bindings[m].status) == c.bindings[m]
  }

  lemma SameSpecsSilent(c: Cluster, c': Cluster)
    requires SameSpecs(c, c')
    ensures Emitted(c, c') == {}
  {
  }

  /** Where a pass over an anchored namespace can be, whatever fails. */
  ghost predicate AnchoredPass(c: Cluster, n: string, s: Config)
    requires Anchored(c, n)
  {
    var ns := c.namespaces[n];
    && SameSpecs(c, s.c)
    && (!s.phase.Idle? ==> s.phase.ns == ns && ns.meta.name == n)
    && match s.phase
       case Idle => true
       case NamespaceRead(_) => true
       case ClassRead(_, found) => found.Some?
       case Guarded(_, found) => found.Some?
       case Bound(_, found, b) => found.Some? && b == s.c.bindings[n]
       case Applying(_, b, _, _, _, _) => b == s.c.bindings[n]
       case Deleting(_, b, why, _, _, _, _) => b == s.c.bindings[n] && why.Stale?
       case Recording(_, b, _, retry) => !retry && b.(status := s.c.bindings[n].status) == s.c.bindings[n]
       case _ => false
  }

  lemma AnchoredStep(setup: Setup, c: Cluster, n: string, s: Config, s': Config)
    requires Anchored(c, n) && AnchoredPass(c, n, s) && PassStep(setup, s, s') && Named(s.c)
    ensures AnchoredPass(c, n, s') && SameSpecs(s.c, s'.c)
  {
    hide Next, Fault, AnchoredPass;
    if s' == Next(setup, s) {
      AnchoredNext(setup, c, n, s);
    } else {
      AnchoredFault(setup, c, n, s, s');
    }
  }

  lemma AnchoredNext(setup: Setup, c: Cluster, n: string, s: Config)
    requires Anchored(c, n) && AnchoredPass(c, n, s) && InBounds(s.phase) && Named(s.c)
    ensures AnchoredPass(c, n, Next(setup, s)) && SameSpecs(s.c, Next(setup, s).c)
  {
    hide PreparedAll, Merge, Sorted, ObjectsOf, ClusterScoped, Key, Keys, U.IsManagedBy, Recordable, ObjectOf;
  }

  lemma AnchoredFault(setup: Setup, c: Cluster, n: string, s: Config, s': Config)
    requires Anchored(c, n) && AnchoredPass(c, n, s) && InBounds(s.phase) && Fault(setup, s, s')
    ensures AnchoredPass(c, n, s') && SameSpecs(s.c, s'.c)
  {
    hide PreparedAll, Merge, Sorted, ObjectsOf, Key, Keys, Recordable, ObjectOf, Claimed;
  }

  /** A pass over an anchored namespace raises no event at any step, whatever fails, and asks for another
      try only when a call has failed. */
  lemma {:induction false} SilentPass(setup: Setup, n: string, path: seq<Config>, i: nat)
    requires IsPass(setup, n, path) && Inv(setup, path[0]) && Anchored(path[0].c, n) && i < |path|
    ensures AnchoredPass(path[0].c, n, path[i])
    ensures i > 0 ==> Emitted(path[i - 1].c, path[i].c) == {}
    ensures i > 0 ==> InBounds(path[i - 1].phase) &&
                      (MustRetry(setup, path[i - 1], path[i]) ==> path[i] != Next(setup, path[i - 1]))
  {
    hide Inv, PassStep, Next, Emitted, AnchoredPass, SameSpecs;
    if i == 0 {
      NamedOf(setup, path[0], n);
      AnchoredStart(path[0], n);
    } else {
      SilentPass(setup, n, path, i - 1);
      PassStates(setup, n, path, i - 1);
      assert PassStep(setup, path[i - 1], path[i - 1 + 1]);
      assert Named(path[i - 1].c) by { IsNamed(setup, path[i - 1]); }
      AnchoredStep(setup, path[0].c, n, path[i - 1], path[i]);
      SameSpecsSilent(path[i - 1].c, path[i].c);
      AnchoredNeverRetries(setup, path[0].c, n, path[i - 1], path[i]);
    }
  }

  lemma IsNamed(setup: Setup, s: Config)
    requires Inv(setup, s)
    ensures Named(s.c)
  {
    hide Covered, PhaseOk;
  }

  lemma AnchoredStart(s: Config, n: string)
    requires Anchored(s.c, n) && s.phase == NamespaceRead(s.c.namespaces[n]) && s.c.namespaces[n].meta.name == n
    ensures AnchoredPass(s.c, n, s)
  {
  }

  lemma AnchoredNeverRetries(setup: Setup, c: Cluster, n: string, s: Config, s': Config)
    requires Anchored(c, n) && AnchoredPass(c, n, s) && PassStep(setup, s, s')
    ensures InBounds(s.phase) && (MustRetry(setup, s, s') ==> s' != Next(setup, s))
  {
    hide Next, Fault, SameSpecs;
  }

  /** Quiescence, exactly: a pass without failing calls for a class that exists is silent if and only if the
      namespace was anchored before. */
  lemma SilentExactly(setup: Setup, n: string, path: seq<Config>)
    requires IsPass(setup, n, path) && Inv(setup, path[0]) && n != ""
    requires Labelled(path[0].c.namespaces[n]) && path[0].c.namespaces[n].ClassName() in path[0].c.classes
    requires forall j | 0 <= j < |path| - 1 :: InBounds(path[j].phase) && path[j + 1] == Next(setup, path[j])
    requires path[|path| - 1].phase.Idle?
    ensures (forall i | 0 < i < |path| :: Emitted(path[i - 1].c, path[i].c) == {}) <==> Anchored(path[0].c, n)
  {
    hide Inv, PassStep, Emitted, MustRetry;
    if Anchored(path[0].c, n) {
      forall i | 0 < i < |path|
        ensures Emitted(path[i - 1].c, path[i].c) == {}
      {
        SilentPass(setup, n, path, i);
      }
    } else {
      NamedOf(setup, path[0], n);
      assert Named(path[0].c) by { IsNamed(setup, path[0]); }
      FirstThree(setup, n, path);
      WritesAreHeard(path[0].c, path[1].c, path[2].c, path[3].c, n);
      assert Emitted(path[2 - 1].c, path[2].c) != {} || Emitted(path[3 - 1].c, path[3].c) != {};
    }
  }

  /** How a pass that finds its class begins. */
  lemma FirstThree(setup: Setup, n: string, path: seq<Config>)
    requires IsPass(setup, n, path) && path[0].c.namespaces[n].meta.name == n
    requires Labelled(path[0].c.namespaces[n]) && path[0].c.namespaces[n].ClassName() in path[0].c.classes
    requires forall j | 0 <= j < |path| - 1 :: InBounds(path[j].phase) && path[j + 1] == Next(setup, path[j])
    requires path[|path| - 1].phase.Idle?
    ensures |path| > 3 && path[1].c == path[0].c
    ensures var c, ns := path[0].c, Guarding(path[0].c.namespaces[n]);
            && (ns != c.namespaces[n] ==> path[2].c == c.(namespaces := c.namespaces[n := ns]))
            && (ns == c.namespaces[n] ==> path[2].c == c)
            && path[3].c == path[2].c.(bindings := c.bindings[n := BindingFor(c, ns)])
  {
    hide PassStep, BindingFor, PreparedAll, AfterApplying, AfterDeleting, AfterRecording;
    assert path[0 + 1] == Next(setup, path[0]);
    assert path[1 + 1] == Next(setup, path[1]);
    assert path[2 + 1] == Next(setup, path[2]);
    BindingForFrame(path[0].c, path[2].c, Guarding(path[0].c.namespaces[n]));
  }

  lemma WritesAreHeard(c: Cluster, c1: Cluster, c2: Cluster, c3: Cluster, n: string)
    requires n in c.namespaces && n != "" && Named(c) && c1 == c && !Anchored(c, n)
    requires Labelled(c.namespaces[n]) && c.namespaces[n].ClassName() in c.classes
    requires var ns := Guarding(c.namespaces[n]);
             && (ns != c.namespaces[n] ==> c2 == c.(namespaces := c.namespaces[n := ns]))
             && (ns == c.namespaces[n] ==> c2 == c)
             && c3 == c2.(bindings := c.bindings[n := BindingFor(c, ns)])
    ensures Emitted(c1, c2) != {} || Emitted(c2, c3) != {}
  {
    hide Emitted;
    if !c.namespaces[n].HasFinalizer() {
      assert Guarding(c.namespaces[n]).finalizers != c.namespaces[n].finalizers;
      NamespaceChangeSeen(c1, c2, n);
    } else {
      BindingChangeSeen(c2, c3, n);
    }
  }

  /** After a success every further pass is silent, version bumps and repeated objects included. */
  lemma SecondPassIsSilent(setup: Setup, c: Cluster, n: string, cls: NamespaceClass, resources: seq<Prepared>,
                           path: seq<Config>, i: nat)
    requires Inv(setup, Config(c, Idle)) && CanSucceed(setup, c, n, cls, resources)
    requires IsPass(setup, n, path) && path[0].c == FaultFreePass(setup, c, n) && 0 < i < |path|
    ensures Emitted(path[i - 1].c, path[i].c) == {}
  {
    hide FaultFreePass, Inv, PassStep, PreparedAll, AllRecordable, NothingBlocks, Emitted, AnchoredPass;
    SuccessfulPass(setup, c, n, cls, resources);
    SuccessKeepsInv(setup, c, n, cls, resources);
    NamedOf(setup, Config(c, Idle), n);
    BeginKeepsInv(setup, Config(path[0].c, Idle), n);
    assert path[0] == Begin(Config(path[0].c, Idle), n);
    SilentPass(setup, n, path, i);
  }

  // ----- Coming to rest -----

  ghost predicate WorldReachable(setup: Setup, w: World) {
    exists run :: IsWorldRun(setup, run) && run[|run| - 1] == w
  }

  lemma WorldReaches(setup: Setup, w: World, w': World)
    requires WorldReachable(setup, w) && WorldStep(setup, w, w')
    ensures WorldReachable(setup, w')
  {
    hide WorldStep, WorldInit;
    var run :| IsWorldRun(setup, run) && run[|run| - 1] == w;
    var longer := run + [w'];
    forall i | 0 <= i < |longer| - 1
      ensures WorldStep(setup, longer[i], longer[i + 1])
    {
      if i < |run| - 1 {
        assert WorldStep(setup, run[i], run[i + 1]);
      }
    }
    assert IsWorldRun(setup, longer) && longer[|longer| - 1] == w';
  }

  lemma ReachableWorldInv(setup: Setup, w: World)
    requires WorldReachable(setup, w)
    ensures Inv(setup, w.s)
  {
    hide Inv, AllAttended, PhaseMatchesReading, WorldStep, WorldInit;
    var run :| IsWorldRun(setup, run) && run[|run| - 1] == w;
    WorldRunInv(setup, run);
  }

  /** Where a pass that finds its class can be, as long as no call fails. */
  predicate Serving(s: Config) {
    match s.phase
    case Idle => true
    case NamespaceRead(ns) => Labelled(ns) && ns.ClassName() in s.c.classes
    case ClassRead(_, found) => found.Some?
    case Guarded(_, found) => found.Some?
    case Bound(_, found, _) => found.Some?
    case Applying(_, _, _, _, _, _) => true
    case Deleting(_, _, why, _, _, _, _) => why.Stale?
    case Recording(_, _, _, retry) => !retry
    case _ => false
  }

  lemma ServingNext(setup: Setup, s: Config)
    requires InBounds(s.phase) && Serving(s) && !s.phase.Idle?
    ensures Serving(Next(setup, s)) && !MustRetry(setup, s, Next(setup, s))
  {
    hide PreparedAll, Merge, Sorted, ObjectsOf, ClusterScoped, Key, Keys, U.IsManagedBy, Recordable, ObjectOf;
    hide BindingFor;
  }

  /** A pass is heard only about its own namespace. */
  lemma OwnEvents(setup: Setup, s: Config, s': Config)
    requires PassStep(setup, s, s') && Named(s.c) && Named(s'.c)
    ensures Emitted(s.c, s'.c) <= {NamespaceEvent(s.phase.ns.meta.name), BindingEvent(s.phase.ns.meta.name)}
  {
    hide PassStep, Named;
    PassStepActive(setup, s, s');
    StepKeepsClasses(setup, s, s');
    var n := s.phase.ns.meta.name;
    forall m | m != n
      ensures Find(s'.c.namespaces, m) == Find(s.c.namespaces, m)
      ensures Find(s'.c.bindings, m) == Find(s.c.bindings, m)
    {
      StepKeepsOthers(setup, s, s', m);
    }
    OwnRequest(s.c, s'.c, n);
  }

  lemma OwnRequest(c: Cluster, c': Cluster, n: string)
    requires Named(c) && Named(c')
    ensures var request := BindingRequest(n, Find(c.bindings, n), Find(c'.bindings, n)); request == n || request == ""
  {
  }

  /** A pass without failing calls for a class that exists, among the events and requests of the system. It
      leaves the queue alone, is heard at most about its namespace, and not at all if that was anchored. */
  lemma {:induction false} ServedPassInWorld(setup: Setup, w: World, n: string, c: Cluster) returns (w': World)
    requires WorldReachable(setup, w) && InBounds(w.s.phase) && Serving(w.s)
    requires !w.s.phase.Idle? ==> w.s.phase.ns.meta.name == n
    ensures WorldReachable(setup, w') && w'.s == Drive(setup, w.s) && w'.queue == w.queue
    ensures w.events <= w'.events <= w.events + {NamespaceEvent(n), BindingEvent(n)}
    ensures Anchored(c, n) && AnchoredPass(c, n, w.s) ==> w'.events == w.events
    decreases Rank(w.s.phase), LeftInLoop(w.s.phase)
  {
    hide WorldReachable, Next, Inv, MustRetry, Emitted, AnchoredPass, SameSpecs, Anchored, Serving;
    if w.s.phase.Idle? {
      w' := w;
    } else {
      var s' := Next(setup, w.s);
      assert PassStep(setup, w.s, s');
      ReachableWorldInv(setup, w);
      PassKeepsInv(setup, w.s, s');
      IsNamed(setup, w.s);
      IsNamed(setup, Config(s'.c, s'.phase));
      ServingNext(setup, w.s);
      OwnEvents(setup, w.s, s');
      PassKeepsNamespace(setup, w.s, s');
      var next := World(s', w.queue, w.events + Emitted(w.s.c, s'.c), ReadingsAfter(w, s'));
      WorldReaches(setup, w, next) by {
        assert PassMoves(setup, w, next);
      }
      if Anchored(c, n) && AnchoredPass(c, n, w.s) {
        AnchoredStep(setup, c, n, w.s, s');
        SameSpecsSilent(w.s.c, s'.c);
      }
      NextDescends(setup, w.s);
      w' := ServedPassInWorld(setup, next, n, c);
    }
  }

  lemma Delivered(setup: Setup, w: World, e: Event) returns (w': World)
    requires WorldReachable(setup, w) && e in w.events
    ensures WorldReachable(setup, w')
    ensures w' == w.(events := w.events - {e}, queue := w.queue + Requests(w.s.c, e))
  {
    hide WorldReachable, PassMoves, EnvMoves, Dequeues, Requeues, Restarts;
    w' := w.(events := w.events - {e}, queue := w.queue + Requests(w.s.c, e));
    assert Delivers(w, w');
    WorldReaches(setup, w, w');
  }

  /** Whatever a pass records, it leaves the namespace anchored. */
  lemma PassAnchors(setup: Setup, c: Cluster, n: string)
    requires Inv(setup, Config(c, Idle)) && n in c.namespaces && Labelled(c.namespaces[n])
    requires c.namespaces[n].ClassName() in c.classes
    ensures Anchored(FaultFreePass(setup, c, n), n)
  {
    hide FaultFreePass, Inv, ServedOutcome;
    PassOutcome(setup, c, n, c.classes[c.namespaces[n].ClassName()]);
    NamedOf(setup, Config(c, Idle), n);
  }

  lemma Dequeued(setup: Setup, w: World, n: string) returns (w': World)
    requires WorldReachable(setup, w) && w.s.phase.Idle? && n in w.queue
    ensures WorldReachable(setup, w') && w' == w.(queue := w.queue - {n}, s := Begin(w.s, n))
  {
    hide WorldReachable, PassMoves, EnvMoves, Delivers, Requeues, Restarts;
    w' := w.(queue := w.queue - {n}, s := Begin(w.s, n));
    assert Dequeues(w, w');
    WorldReaches(setup, w, w');
  }

  /** One request served to the end without failing calls. */
  lemma Served(setup: Setup, w: World, n: string) returns (w': World)
    requires WorldReachable(setup, w) && w.s.phase.Idle? && n in w.queue && n in w.s.c.namespaces
    requires Labelled(w.s.c.namespaces[n]) && w.s.c.namespaces[n].ClassName() in w.s.c.classes
    ensures WorldReachable(setup, w') && w'.s == Config(FaultFreePass(setup, w.s.c, n), Idle)
    ensures w'.queue == w.queue - {n}
    ensures w.events <= w'.events <= w.events + {NamespaceEvent(n), BindingEvent(n)}
    ensures Anchored(w.s.c, n) ==> w'.events == w.events
  {
    hide WorldReachable, Inv, Drive, Anchored, AnchoredPass;
    ReachableWorldInv(setup, w);
    NamedOf(setup, w.s, n);
    var begun := Dequeued(setup, w, n);
    if Anchored(w.s.c, n) {
      AnchoredStart(begun.s, n);
    }
    w' := ServedPassInWorld(setup, begun, n, w.s.c);
  }

  /** A labelled namespace whose class exists comes to rest after at most two passes without failing calls,
      whatever they record: success or failure. */
  lemma ComesToRest(setup: Setup, w: World, n: string) returns (w': World)
    requires WorldReachable(setup, w) && w.s.phase.Idle? && w.queue == {n} && w.events == {}
    requires n in w.s.c.namespaces && Labelled(w.s.c.namespaces[n])
    requires w.s.c.namespaces[n].ClassName() in w.s.c.classes
    ensures WorldReachable(setup, w') && w'.s.phase.Idle? && w'.queue == {} && w'.events == {}
    ensures var once := FaultFreePass(setup, w.s.c, n);
            w'.s.c == once || w'.s.c == FaultFreePass(setup, once, n)
  {
    hide WorldReachable, Inv, FaultFreePass;
    ReachableWorldInv(setup, w);
    PassAnchors(setup, w.s.c, n);
    w' := Served(setup, w, n);
    if NamespaceEvent(n) in w'.events {
      w' := Delivered(setup, w', NamespaceEvent(n));
    }
    if BindingEvent(n) in w'.events {
      w' := Delivered(setup, w', BindingEvent(n));
    }
    assert w'.events == {};
    if w'.queue != {} {
      assert w'.queue == {n};
      w' := Served(setup, w', n);
    }
  }
}
