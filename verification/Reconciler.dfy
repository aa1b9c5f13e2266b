/** The reconciler itself: an object that reads and writes the cluster through calls that may fail. Every
    method is proved to take the steps of Machine, so what is proved of runs holds of this code. */
module Reconciler {
  import opened Wrappers
  import opened ResourceRefs
  import opened GvkPolicy
  import opened Cluster
  import opened Prepare
  import opened Machine
  import opened Invariants
  import opened Steps
  import opened Safety
  import opened Convergence
  import opened Wakeup
  import U = Unstructured

  // ----- Traces -----

  /** No call failed on the way. */
  ghost predicate Straight(setup: Setup, path: seq<Config>) {
    forall j | 0 <= j < |path| - 1 :: InBounds(path[j].phase) && path[j + 1] == Next(setup, path[j])
  }

  /** Every step but the marked ones is the one the code prescribes. */
  ghost predicate Faithful(setup: Setup, path: seq<Config>, faults: set<nat>) {
    && (forall j | j in faults :: j + 1 < |path|)
    && (forall j | 0 <= j < |path| - 1 && j !in faults ::
          InBounds(path[j].phase) && path[j + 1] == Next(setup, path[j]))
  }

  lemma PathGrows(setup: Setup, n: string, path: seq<Config>, faults: set<nat>, s: Config)
    requires IsPass(setup, n, path) && Faithful(setup, path, faults) && PassStep(setup, path[|path| - 1], s)
    ensures IsPass(setup, n, path + [s])
    ensures |path| - 1 !in faults
    ensures Faithful(setup, path + [s], faults + {|path| - 1})
    ensures InBounds(path[|path| - 1].phase) && s == Next(setup, path[|path| - 1]) ==>
              Faithful(setup, path + [s], faults)
  {
    hide PassStep, Next;
    var longer := path + [s];
    forall i | 0 <= i < |longer| - 1
      ensures PassStep(setup, longer[i], longer[i + 1])
      ensures i < |path| - 1 ==> longer[i] == path[i] && longer[i + 1] == path[i + 1]
    {
      if i < |path| - 1 {
        assert PassStep(setup, path[i], path[i + 1]);
      }
    }
  }

  /** A straight pass that has come to its end is the fault-free pass. */
  lemma {:induction false} StraightIsDrive(setup: Setup, n: string, path: seq<Config>, i: nat)
    requires IsPass(setup, n, path) && Straight(setup, path) && i < |path|
    ensures InBounds(path[i].phase) && InBounds(path[0].phase)
    ensures Drive(setup, path[i]) == Drive(setup, path[0])
  {
    hide PassStep, Next, Drive;
    if i > 0 {
      StraightIsDrive(setup, n, path, i - 1);
      assert PassStep(setup, path[i - 1], path[i - 1 + 1]);
      PassStepActive(setup, path[i - 1], path[i]);
      assert path[i - 1 + 1] == Next(setup, path[i - 1]);
      DriveNext(setup, path[i - 1]);
    }
  }

  lemma StraightPass(setup: Setup, n: string, path: seq<Config>)
    requires IsPass(setup, n, path) && Straight(setup, path) && path[|path| - 1].phase.Idle?
    ensures path[|path| - 1].c == FaultFreePass(setup, path[0].c, n)
  {
    hide PassStep, Next, Drive;
    StraightIsDrive(setup, n, path, |path| - 1);
    DriveIdle(setup, path[|path| - 1]);
    assert path[0] == Begin(Config(path[0].c, Idle), n);
  }

  lemma PassBegins(setup: Setup, n: string, c: Cluster)
    requires n in c.namespaces
    ensures IsPass(setup, n, [Config(c, NamespaceRead(c.namespaces[n]))])
    ensures Faithful(setup, [Config(c, NamespaceRead(c.namespaces[n]))], {})
  {
  }

  lemma NoNamespaceNoPass(setup: Setup, n: string, c: Cluster)
    requires n !in c.namespaces
    ensures FaultFreePass(setup, c, n) == c
  {
  }

  /** A finished pass keeps the invariant, and is the fault-free pass if it was straight. */
  lemma PassKeepsAll(setup: Setup, n: string, path: seq<Config>, faults: set<nat>)
    requires IsPass(setup, n, path) && path[|path| - 1].phase.Idle?
    requires Inv(setup, Config(path[0].c, Idle)) && Faithful(setup, path, faults)
    ensures Inv(setup, Config(path[|path| - 1].c, Idle))
    ensures faults == {} ==> path[|path| - 1].c == FaultFreePass(setup, path[0].c, n)
  {
    hide Inv, PassStep, FaultFreePass, Next;
    BeginKeepsInv(setup, Config(path[0].c, Idle), n);
    assert path[0] == Begin(Config(path[0].c, Idle), n);
    PassStates(setup, n, path, |path| - 1);
    if faults == {} {
      StraightPass(setup, n, path);
    }
  }

  ghost predicate Unique(names: seq<string>) {
    forall i, j | 0 <= i < j < |names| :: names[i] != names[j]
  }

  /** The requests of the bindings looked at so far, each once. */
  ghost predicate Collected(bindings: map<string, Binding>, done: set<string>, seen: set<string>,
                            requests: seq<string>) {
    && seen == RequestsOf(bindings, done)
    && (forall n :: n in requests <==> n in seen)
    && Unique(requests)
  }

  lemma NoRequests(bindings: map<string, Binding>)
    ensures RequestsOf(bindings, {}) == {} && Unique([])
  {
  }

  lemma CollectOne(bindings: map<string, Binding>, done: set<string>, seen: set<string>, requests: seq<string>,
                   name: string)
    requires Collected(bindings, done, seen, requests) && name in bindings
    ensures var request := RequestFor(name, bindings[name]);
            if request == "" || request in seen then Collected(bindings, done + {name}, seen, requests)
            else Collected(bindings, done + {name}, seen + {request}, requests + [request])
  {
    hide RequestFor, RequestsOf;
    RequestsOfOneMore(bindings, done, name);
  }

  // ----- Replies of the API server -----

  datatype Reply<T> = Found(value: T) | NotFound | CallFailed

  // ----- Steps of the delete loop -----

  lemma DeleteSteps(setup: Setup, s: Config)
    requires s.phase.Deleting? && s.phase.i < |s.phase.todo|
    ensures var c, ref, on := s.c, s.phase.todo[s.phase.i], s.phase.(i := s.phase.i + 1);
            if Key(ref) in Keys(s.phase.keep) then
              Next(setup, s) == Config(c, on) && PassStep(setup, s, Config(c, on))
            else
              && PassStep(setup, s, DeleteFailure(s))
              && match ObjectOf(ref)
                 case None => Next(setup, s) == DeleteFailure(s)
                 case Some(id) =>
                   if id !in c.store.objects then
                     Next(setup, s) == Config(c, on) && PassStep(setup, s, Config(c, on))
                   else if !U.IsManagedBy(c.store.objects[id], s.phase.ns.meta.uid) then
                     Next(setup, s) == DeleteFailure(s)
                   else
                     && Next(setup, s) == Config(c.(store := c.store.Remove({id})), on)
                     && PassStep(setup, s, Config(c.(store := c.store.Remove({id})), on))
  {
    hide Key, Keys, ObjectOf, U.IsManagedBy, DeleteFailure;
  }

  /** What a failure records does not depend on how far the loop got. */
  lemma DeleteFailureAnywhere(c: Cluster, c0: Cluster, phase: Phase, i: nat)
    requires phase.Deleting?
    ensures DeleteFailure(Config(c, phase)).c == c
    ensures DeleteFailure(Config(c, phase)).phase == DeleteFailure(Config(c0, phase.(i := i))).phase
  {
    hide ObjectsOf, Merge, Sorted;
  }

  lemma ApplySteps(setup: Setup, s: Config)
    requires s.phase.Applying? && s.phase.k < |s.phase.resources|
    ensures var c, p, on := s.c, s.phase.resources[s.phase.k], s.phase.(k := s.phase.k + 1);
            && PassStep(setup, s, ApplyFailure(s, ApplyFailed)) && PassStep(setup, s, ApplyFailure(s, ApplyConflict))
            && if Recordable(p.ref) then
                 var stored := c.(store := c.store.Apply(ObjectOf(p.ref).value, p.content, s.phase.ns.meta.uid));
                 Next(setup, s) == Config(stored, on) && PassStep(setup, s, Config(stored, on))
               else
                 Next(setup, s) == ApplyFailure(s, ApplyFailed)
  {
    hide ObjectOf, ApplyFailure;
  }

  lemma PrepareSteps(setup: Setup, s: Config, broken: nat)
    requires s.phase.Bound? && s.phase.found.Some?
    ensures PassStep(setup, s, AfterPrepare(setup, s, broken))
    ensures broken == |s.phase.found.value.resources| ==> Next(setup, s) == AfterPrepare(setup, s, broken)
  {
    hide AfterPrepare;
  }

  /** A failed apply is recorded with what was inventoried before and what was applied since. */
  lemma ApplyFailureRecords(s: Config, reason: Reason)
    requires s.phase.Applying? && InBounds(s.phase)
    ensures ApplyFailure(s, reason)
            == s.(phase := Recording(s.phase.ns,
                                     Failed(s.phase.binding, s.phase.ns.meta.uid, s.phase.cls.generation, reason,
                                            Merge(s.phase.binding.status.inventory,
                                                  Refs(s.phase.resources[..s.phase.k]))),
                                     Claimed(s.phase), false))
  {
  }

  /** How a cleanup starts: from the binding, or at once without one. */
  lemma CleanupBegins(setup: Setup, s: Config)
    requires s.phase.NamespaceRead?
    requires var ns := s.phase.ns; if ns.deleting then ns.HasFinalizer() else ns.ClassName() == ""
    ensures PassStep(setup, s, Next(setup, s))
    ensures var ns, n := s.phase.ns, s.phase.ns.meta.name;
            Next(setup, s) == s.(phase :=
              if n !in s.c.bindings then Releasing(ns)
              else
                var b := s.c.bindings[n];
                if ns.deleting then Deleting(ns, b, NamespaceGone, ClusterScoped(b.status.inventory), [], 0, s.c.store)
                else Deleting(ns, b, LabelGone, b.status.inventory, [], 0, s.c.store))
  {
  }

  lemma AbortIsFault(setup: Setup, s: Config)
    requires InBounds(s.phase) && !s.phase.Idle?
    ensures PassStep(setup, s, Abort(s)) && Abort(s).phase.Idle?
    ensures Abort(s).c == s.c.(store := s.c.store.(pending := Abort(s).c.store.pending))
  {
    hide Next, Claimed;
  }

  /** What the pass writes for the binding, case by case. */
  lemma BindingCases(c: Cluster, ns: Namespace)
    ensures var n, className, b := ns.meta.name, ns.ClassName(), BindingFor(c, ns);
            if n !in c.bindings then b == Binding(n, className, 1, EmptyStatus)
            else
              var before := c.bindings[n];
              if before.namespaceName == n && before.className == className then
                b == before && c.bindings[n := b] == c.bindings
              else
                b == before.(namespaceName := n, className := className, generation := before.generation + 1)
  {
  }

  lemma GuardedSteps(setup: Setup, s: Config)
    requires s.phase.Guarded?
    ensures var b := BindingFor(s.c, s.phase.ns);
            && Next(setup, s) == Config(s.c.(bindings := s.c.bindings[s.phase.ns.meta.name := b]),
                                        Bound(s.phase.ns, s.phase.found, b))
            && PassStep(setup, s, Next(setup, s))
  {
    hide BindingFor;
  }

  lemma AllApplied(setup: Setup, s: Config)
    requires s.phase.Applying? && s.phase.k == |s.phase.resources|
    ensures PassStep(setup, s, Next(setup, s))
    ensures Next(setup, s)
            == s.(phase := Deleting(s.phase.ns, s.phase.binding, Stale(s.phase.cls, s.phase.resources, s.phase.start),
                                    s.phase.binding.status.inventory, Sorted(Refs(s.phase.resources)), 0, s.c.store))
  {
  }

  lemma KeysGrow(resources: seq<Prepared>, p: Prepared)
    ensures Keys(Refs(resources + [p])) == Keys(Refs(resources)) + {Key(p.ref)}
  {
    hide Key;
    assert Refs(resources + [p]) == Refs(resources) + [p.ref];
  }

  class NamespaceReconciler {
    const setup: Setup
    /** Reconciling again after a while is off when this is 0. */
    const reconcileAfter: nat

    // The cluster behind the client.
    var namespaces: map<string, Namespace>
    var classes: map<string, NamespaceClass>
    var bindings: map<string, Binding>
    var objects: map<ObjectId, U.Fields>

    // History, and the trace of the pass in progress.
    ghost var applied: map<ObjectId, string>
    ghost var pending: set<ObjectId>
    ghost var uids: set<string>
    ghost var path: seq<Config>
    /** The steps of the trace whose call failed, and the calls of the pass that failed. */
    ghost var faults: set<nat>
    ghost var failures: nat

    constructor (setup: Setup, reconcileAfter: nat, namespaces: map<string, Namespace>,
                 classes: map<string, NamespaceClass>, objects: map<ObjectId, U.Fields>)
      requires forall n | n in namespaces :: namespaces[n].meta.name == n
      requires forall n, m | n in namespaces && m in namespaces ::
                 namespaces[n].meta.uid == namespaces[m].meta.uid ==> n == m
      requires forall k | k in classes :: classes[k].name == k
      ensures Init(Config(State(), Idle))
      ensures this.setup == setup && this.reconcileAfter == reconcileAfter
      ensures State().namespaces == namespaces && State().classes == classes && State().bindings == map[]
      ensures State().store == Store(objects, map[], {})
    {
      this.setup, this.reconcileAfter := setup, reconcileAfter;
      this.namespaces, this.classes, this.objects := namespaces, classes, objects;
      bindings, applied, pending := map[], map[], {};
      uids := set n | n in namespaces :: namespaces[n].meta.uid;
      path, faults, failures := [], {}, 0;
    }

    ghost function State(): Cluster
      reads this
    {
      Cluster(namespaces, classes, bindings, Store(objects, applied, pending), uids)
    }

    /** The trace is a pass for n so far, in which every step is the one the code prescribes unless a call
        made for that very step failed; at most one failure is not answered yet. */
    ghost predicate Tracing(n: string)
      reads this
    {
      && path != [] && IsPass(setup, n, path) && Faithful(setup, path, faults)
      && |faults| <= failures <= |faults| + 1
    }

    /** The pass for n has come to this phase, and the cluster is as it left it. */
    ghost predicate At(n: string, phase: Phase)
      reads this
    {
      && Tracing(n) && failures == |faults|
      && path[|path| - 1] == Config(State(), phase) && InBounds(phase)
    }

    /** The pass for n is over, and returns an error exactly if its last call failed or the status it recorded
        is that of a cleanup that must be tried again. */
    ghost predicate Ended(n: string, failed: bool)
      reads this
    {
      && At(n, Idle) && |path| >= 2 && InBounds(path[|path| - 2].phase)
      && (MustRetry(setup, path[|path| - 2], path[|path| - 1]) ==> failed)
      && (failed <==> |path| - 2 in faults || (path[|path| - 2].phase.Recording? && path[|path| - 2].phase.retry))
    }

    // ----- Growing the trace -----

    /** The pass has done its next step, or answers a call that has just failed. */
    ghost method Advance(n: string, phase: Phase)
      requires Tracing(n)
      requires PassStep(setup, path[|path| - 1], Config(State(), phase))
      requires failures == |faults| ==> Config(State(), phase) == Next(setup, path[|path| - 1])
      modifies this`path, this`faults
      ensures path == old(path) + [Config(State(), phase)]
      ensures At(n, phase)
      ensures |path| - 2 in faults <==> failures > |old(faults)|
    {
      hide Fault, Next, Faithful;
      PathGrows(setup, n, path, faults, Config(State(), phase));
      StepBounds(setup, path[|path| - 1], Config(State(), phase));
      if |faults| < failures {
        faults := faults + {|path| - 1};
      }
      path := path + [Config(State(), phase)];
    }

    /** The pass ends with an error where it is, because a call has just failed. */
    ghost method GiveUp(n: string)
      requires Tracing(n) && path[|path| - 1].c == State() && !path[|path| - 1].phase.Idle?
      requires InBounds(path[|path| - 1].phase) && failures == |faults| + 1
      modifies this`path, this`faults, this`pending
      ensures old(path) < path && Ended(n, true)
      ensures path == old(path) + [Abort(old(path)[|old(path)| - 1])]
    {
      hide Faithful, Abort, Next, Fault, PassStep, IsPass;
      var s := Abort(path[|path| - 1]);
      AbortIsFault(setup, path[|path| - 1]);
      PathGrows(setup, n, path, faults, s);
      pending := s.c.store.pending;
      faults := faults + {|path| - 1};
      path := path + [s];
    }

    // ----- Calls to the API server -----

    /** Any call may fail without effect. */
    method Call() returns (ok: bool)
      modifies this`failures
      ensures failures == old(failures) + (if ok then 0 else 1)
    {
      ok := *;
      failures := failures + (if ok then 0 else 1);
    }

    method GetNamespace(name: string) returns (reply: Reply<Namespace>)
      modifies this`failures
      ensures failures == old(failures) + (if reply.CallFailed? then 1 else 0)
      ensures match reply
              case Found(ns) => name in namespaces && ns == namespaces[name]
              case NotFound => name !in namespaces
              case CallFailed => true
    {
      var ok := Call();
      reply := if !ok then CallFailed else if name in namespaces then Found(namespaces[name]) else NotFound;
    }

    method UpdateNamespace(ns: Namespace) returns (ok: bool)
      modifies this`namespaces, this`failures
      ensures failures == old(failures) + (if ok then 0 else 1)
      ensures namespaces == if ok then old(namespaces)[ns.meta.name := ns] else old(namespaces)
    {
      ok := Call();
      if ok {
        namespaces := namespaces[ns.meta.name := ns];
      }
    }

    method GetClass(name: string) returns (reply: Reply<NamespaceClass>)
      modifies this`failures
      ensures failures == old(failures) + (if reply.CallFailed? then 1 else 0)
      ensures match reply
              case Found(cls) => name in classes && cls == classes[name]
              case NotFound => name !in classes
              case CallFailed => true
    {
      var ok := Call();
      reply := if !ok then CallFailed else if name in classes then Found(classes[name]) else NotFound;
    }

    method GetBinding(name: string) returns (reply: Reply<Binding>)
      modifies this`failures
      ensures failures == old(failures) + (if reply.CallFailed? then 1 else 0)
      ensures match reply
              case Found(b) => name in bindings && b == bindings[name]
              case NotFound => name !in bindings
              case CallFailed => true
    {
      var ok := Call();
      reply := if !ok then CallFailed else if name in bindings then Found(bindings[name]) else NotFound;
    }

    /** A new binding starts at generation 1 with an empty status. */
    method CreateBinding(name: string, namespaceName: string, className: string) returns (ok: bool)
      requires name !in bindings
      modifies this`bindings, this`failures
      ensures failures == old(failures) + (if ok then 0 else 1)
      ensures bindings == if ok then old(bindings)[name := Binding(namespaceName, className, 1, EmptyStatus)]
                          else old(bindings)
    {
      ok := Call();
      if ok {
        bindings := bindings[name := Binding(namespaceName, className, 1, EmptyStatus)];
      }
    }

    /** The server counts changes of the spec in the generation and leaves the status alone. */
    method UpdateBindingSpec(name: string, namespaceName: string, className: string) returns (ok: bool)
      requires name in bindings
      requires bindings[name].namespaceName != namespaceName || bindings[name].className != className
      modifies this`bindings, this`failures
      ensures failures == old(failures) + (if ok then 0 else 1)
      ensures bindings == if ok then
                            var b := old(bindings)[name];
                            old(bindings)[name := b.(namespaceName := namespaceName, className := className,
                                                     generation := b.generation + 1)]
                          else old(bindings)
    {
      ok := Call();
      if ok {
        var b := bindings[name];
        bindings := bindings[name := b.(namespaceName := namespaceName, className := className,
                                        generation := b.generation + 1)];
      }
    }

    /** The status subresource: everything else stays as stored. */
    method UpdateBindingStatus(name: string, status: Status) returns (ok: bool)
      requires name in bindings
      modifies this`bindings, this`failures
      ensures failures == old(failures) + (if ok then 0 else 1)
      ensures bindings == if ok then old(bindings)[name := old(bindings)[name].(status := status)] else old(bindings)
    {
      ok := Call();
      if ok {
        bindings := bindings[name := bindings[name].(status := status)];
      }
    }

    method DeleteBinding(name: string) returns (ok: bool)
      modifies this`bindings, this`failures
      ensures failures == old(failures) + (if ok then 0 else 1)
      ensures bindings == if ok then old(bindings) - {name} else old(bindings)
    {
      ok := Call();
      if ok {
        bindings := bindings - {name};
      }
    }

    method GetObject(id: ObjectId) returns (reply: Reply<U.Fields>)
      modifies this`failures
      ensures failures == old(failures) + (if reply.CallFailed? then 1 else 0)
      ensures match reply
              case Found(o) => id in objects && o == objects[id]
              case NotFound => id !in objects
              case CallFailed => true
    {
      var ok := Call();
      reply := if !ok then CallFailed else if id in objects then Found(objects[id]) else NotFound;
    }

    /** Server-side apply of one object for the owner with that UID. The server refuses names with slashes
        and API versions that cannot be read; any other refusal may be a conflict. */
    method ApplyObject(p: Prepared, uid: string) returns (outcome: Result<(), Reason>)
      modifies this`objects, this`applied, this`pending, this`failures
      ensures old(failures) <= failures <= old(failures) + 1
      ensures outcome.Success? ==> Recordable(p.ref) && failures == old(failures)
      ensures outcome.Failure? ==> outcome.error == ApplyFailed || outcome.error == ApplyConflict
      ensures outcome.Failure? && failures == old(failures) ==> !Recordable(p.ref) && outcome.error == ApplyFailed
      ensures var before := old(Store(objects, applied, pending));
              Store(objects, applied, pending)
              == if outcome.Success? then before.Apply(ObjectOf(p.ref).value, p.content, uid) else before
    {
      var ok := Call();
      if !ok {
        var conflict: bool := *;
        return Failure(if conflict then ApplyConflict else ApplyFailed);
      }
      if !Recordable(p.ref) {
        return Failure(ApplyFailed);
      }
      var id := ObjectOf(p.ref).value;
      objects, applied, pending := objects[id := p.content], applied[id := uid], pending - {id};
      outcome := Success(());
    }

    /** Deleting is immediate; an object that is gone already counts as deleted. */
    method DeleteObject(id: ObjectId) returns (ok: bool)
      modifies this`objects, this`applied, this`pending, this`failures
      ensures failures == old(failures) + (if ok then 0 else 1)
      ensures var before := old(Store(objects, applied, pending));
              Store(objects, applied, pending) == if ok then before.Remove({id}) else before
    {
      ok := Call();
      if ok {
        objects, applied, pending := objects - {id}, applied - {id}, pending - {id};
      }
    }

    // ----- Finalizers -----

    static method HasNamespaceFinalizer(ns: Namespace) returns (r: bool)
      ensures r == ns.HasFinalizer()
    {
      for i := 0 to |ns.finalizers|
        invariant Finalizer !in ns.finalizers[..i]
      {
        if ns.finalizers[i] == Finalizer {
          return true;
        }
      }
      return false;
    }

    /** The namespace goes from its class read to its guard: marked, unless it was marked already. */
    method EnsureNamespaceFinalizer(ns: Namespace, ghost cls: NamespaceClass) returns (ok: bool, ns': Namespace)
      requires At(ns.meta.name, ClassRead(ns, Some(cls)))
      modifies this`namespaces, this`pending, this`path, this`faults, this`failures
      ensures old(path) < path
      ensures ok ==> At(ns.meta.name, Guarded(ns', Some(cls))) && ns'.HasFinalizer()
      ensures ns' == if "namespaceclass.akuity.io/finalizer" in ns.finalizers then ns
                     else ns.(finalizers := ns.finalizers + ["namespaceclass.akuity.io/finalizer"])
      ensures namespaces == if ok && ns' != ns then old(namespaces)[ns.meta.name := ns'] else old(namespaces)
      ensures !ok ==> Ended(ns.meta.name, true)
    {
      hide Faithful, IsPass;
      ns' := ns;
      var marked := HasNamespaceFinalizer(ns);
      if !marked {
        ns' := ns.(finalizers := ns.finalizers + [Finalizer]);
        ok := UpdateNamespace(ns');
        if !ok {
          GiveUp(ns.meta.name);
          return;
        }
      }
      ok := true;
      Advance(ns.meta.name, Guarded(ns', Some(cls)));
    }

    /** All finalizers but the controller's own, in order. */
    static method OtherFinalizers(ns: Namespace) returns (finalizers: seq<string>)
      ensures finalizers == Without(ns.finalizers, Finalizer) == OthersOf(ns.finalizers)
    {
      finalizers := [];
      for i := 0 to |ns.finalizers|
        invariant finalizers == Without(ns.finalizers[..i], Finalizer)
      {
        assert ns.finalizers[..i + 1][..i] == ns.finalizers[..i];
        if ns.finalizers[i] != Finalizer {
          finalizers := finalizers + [ns.finalizers[i]];
        }
      }
      assert ns.finalizers[..|ns.finalizers|] == ns.finalizers;
      WithoutIsOthers(ns.finalizers);
    }

    /** The end of all three ways to clean up. */
    method RemoveNamespaceFinalizer(ns: Namespace) returns (ok: bool)
      requires At(ns.meta.name, Releasing(ns))
      modifies this`namespaces, this`pending, this`path, this`faults, this`failures
      ensures old(path) < path && Ended(ns.meta.name, !ok)
      ensures ok ==> |path| >= 2 && path[|path| - 2].phase.Releasing?
      ensures namespaces == if ok && "namespaceclass.akuity.io/finalizer" in ns.finalizers
                            then old(namespaces)[ns.meta.name := ns.(finalizers := OthersOf(ns.finalizers))]
                            else old(namespaces)
    {
      hide Faithful, IsPass, Without, OthersOf;
      var marked := HasNamespaceFinalizer(ns);
      if marked {
        var finalizers := OtherFinalizers(ns);
        ok := UpdateNamespace(ns.(finalizers := finalizers));
        if !ok {
          GiveUp(ns.meta.name);
          return;
        }
      }
      ok := true;
      Advance(ns.meta.name, Idle);
    }

    // ----- Deleting -----

    static method ClusterScopedResourceRefs(refs: seq<ResourceRef>) returns (clusterScoped: seq<ResourceRef>)
      ensures clusterScoped == ClusterScoped(refs)
    {
      clusterScoped := [];
      for i := 0 to |refs|
        invariant clusterScoped == ClusterScoped(refs[..i])
      {
        assert refs[..i + 1][..i] == refs[..i];
        if refs[i].namespace == "" {
          clusterScoped := clusterScoped + [refs[i]];
        }
      }
      assert refs[..|refs|] == refs;
    }

    /** Deletes what was recorded and is not desired, in inventory order, stopping at the first reference
        that cannot be read, fetched, claimed or deleted. */
    method DeleteStaleManagedResources(ns: Namespace, previousInventory: seq<ResourceRef>,
                                       desiredInventory: seq<ResourceRef>, ghost binding: Binding, ghost why: Why)
      returns (ok: bool)
      requires At(ns.meta.name, Deleting(ns, binding, why, previousInventory, desiredInventory, 0,
                                         Store(objects, applied, pending)))
      modifies this`objects, this`applied, this`pending, this`path, this`faults, this`failures
      ensures old(path) <= path
      ensures ok ==> At(ns.meta.name, Deleting(ns, binding, why, previousInventory, desiredInventory,
                                               |previousInventory|, old(Store(objects, applied, pending))))
      ensures !ok ==> At(ns.meta.name, DeleteFailure(old(path)[|old(path)| - 1]).phase)
    {
      hide Faithful, IsPass, Key, Keys, Next, PassStep, DeleteFailure;
      ghost var n, start := ns.meta.name, Store(objects, applied, pending);
      ghost var before := State();
      var desiredKeys := DesiredKeys(desiredInventory);
      for i := 0 to |previousInventory|
        invariant old(path) <= path
        invariant At(n, Deleting(ns, binding, why, previousInventory, desiredInventory, i, start))
      {
        ghost var here := Deleting(ns, binding, why, previousInventory, desiredInventory, i, start);
        DeleteFailureAnywhere(State(), before, here, 0);
        ok := PassOver(ns, previousInventory[i], desiredKeys, here);
        if !ok {
          return;
        }
      }
      ok := true;
    }

    /** One round of the loop: a desired reference is skipped, another one deleted. */
    method PassOver(ns: Namespace, ref: ResourceRef, desiredKeys: set<string>, ghost here: Phase) returns (ok: bool)
      requires here.Deleting? && here.ns == ns && here.i < |here.todo| && here.todo[here.i] == ref
      requires desiredKeys == Keys(here.keep) && At(ns.meta.name, here)
      modifies this`objects, this`applied, this`pending, this`path, this`faults, this`failures
      ensures old(path) < path
      ensures At(ns.meta.name, if ok then here.(i := here.i + 1)
                               else DeleteFailure(old(path)[|old(path)| - 1]).phase)
    {
      hide Faithful, IsPass, Key, Keys, ObjectOf, U.IsManagedBy, Next, PassStep, DeleteFailure;
      ghost var failed := DeleteFailure(path[|path| - 1]).phase;
      DeleteSteps(setup, path[|path| - 1]);
      DeleteFailureAnywhere(State(), State(), here, here.i);
      if Key(ref) !in desiredKeys {
        ok := DeleteStaleResource(ref, ns.meta.uid);
        if !ok {
          Advance(ns.meta.name, failed);
          return;
        }
      }
      ok := true;
      Advance(ns.meta.name, here.(i := here.i + 1));
    }

    /** Deletes one object, if it exists, provided that it is owned. */
    method DeleteStaleResource(ref: ResourceRef, uid: string) returns (ok: bool)
      modifies this`objects, this`applied, this`pending, this`failures
      ensures old(failures) <= failures <= old(failures) + 1
      ensures ok ==>
                && failures == old(failures) && ObjectOf(ref).Some?
                && var id := ObjectOf(ref).value;
                   if id in old(objects) then
                     && U.IsManagedBy(old(objects)[id], uid)
                     && Store(objects, applied, pending) == old(Store(objects, applied, pending)).Remove({id})
                   else
                     Store(objects, applied, pending) == old(Store(objects, applied, pending))
      ensures !ok ==>
                && Store(objects, applied, pending) == old(Store(objects, applied, pending))
                && (failures == old(failures) && ObjectOf(ref).Some? ==>
                      && ObjectOf(ref).value in objects
                      && !U.IsManagedBy(objects[ObjectOf(ref).value], uid))
    {
      hide ObjectOf, U.IsManagedBy;
      var id := ObjectOf(ref);
      if id.None? {
        return false;
      }
      var reply := GetObject(id.value);
      if reply.CallFailed? || (reply.Found? && !U.IsManagedBy(reply.value, uid)) {
        return false;
      }
      ok := true;
      if reply.Found? {
        ok := DeleteObject(id.value);
      }
    }

    static method DesiredKeys(refs: seq<ResourceRef>) returns (desiredKeys: set<string>)
      ensures desiredKeys == Keys(refs)
    {
      hide Key;
      desiredKeys := {};
      for i := 0 to |refs|
        invariant desiredKeys == Keys(refs[..i])
      {
        assert refs[..i + 1] == refs[..i] + [refs[i]];
        desiredKeys := desiredKeys + {Key(refs[i])};
      }
      assert refs[..|refs|] == refs;
    }

    // ----- Preparing -----

    /** An object of that identity must be absent or owned. */
    method EnsureCanManage(gvk: Gvk, namespace: string, name: string, ns: Namespace)
      returns (error: Option<Reason>, ghost readFails: bool)
      modifies this`failures
      ensures failures == old(failures) + (if readFails then 1 else 0)
      ensures var id := ObjectId(gvk.group, gvk.kind, namespace, name);
              error == if readFails then Some(ApplyFailed)
                       else if id in objects && !U.IsManagedBy(objects[id], ns.meta.uid) then Some(ApplyConflict)
                       else None
    {
      var reply := GetObject(ObjectId(gvk.group, gvk.kind, namespace, name));
      readFails := reply.CallFailed?;
      error := match reply
               case CallFailed => Some(ApplyFailed)
               case NotFound => None
               case Found(existing) => if U.IsManagedBy(existing, ns.meta.uid) then None else Some(ApplyConflict);
    }

    method PrepareManagedResource(o: U.Fields, ns: Namespace, className: string)
      returns (r: Result<Prepared, Reason>, ghost readFails: bool)
      modifies this`failures
      ensures failures == old(failures) + (if readFails then 1 else 0)
      ensures match ShapedObject(setup, ns.meta, className, o)
              case Failure(reason) => r == Failure(reason)
              case Success(p) =>
                r == if readFails then Failure(ApplyFailed)
                     else if Foreign(objects, p.ref, ns.meta.uid) then Failure(ApplyConflict)
                     else Success(p)
    {
      hide U.Managed, U.ApiVersion, U.Kind, U.Name, U.Namespace, U.Labels, U.Annotations, U.IsManagedBy;
      hide U.SetNamespace, U.AddManagedMetadata, U.RemoveMetadata, ParseGroupVersion, Validate, U.OwnerLabels;
      readFails := false;
      var gvk := GvkOf(o);
      if gvk.kind == "" {
        return Failure(ApplyFailed), false;
      }
      if U.Name(o) == "" {
        return Failure(ApplyFailed), false;
      }
      if Validate(setup.policy, gvk) != Allowed {
        return Failure(GvkDenied), false;
      }
      if gvk !in setup.scopes {
        return Failure(ApplyFailed), false;
      }
      var namespace := if setup.scopes[gvk] == Namespaced then ns.meta.name else "";
      var error;
      error, readFails := EnsureCanManage(gvk, namespace, U.Name(o), ns);
      if error.Some? {
        return Failure(error.value), readFails;
      }
      var sent := U.Managed(o, namespace, ns.meta.name, ns.meta.uid, className);
      U.ManagedIsMarked(o, namespace, ns.meta.name, ns.meta.uid, className);
      r := Success(Prepared(sent, ResourceRef(U.ApiVersion(sent), U.Kind(sent), U.Namespace(sent), U.Name(sent))));
    }

    method PrepareTemplate(raw: RawResource, ns: Namespace, className: string)
      returns (r: Result<Prepared, Reason>, ghost readFails: bool)
      modifies this`failures
      ensures failures == old(failures) + (if readFails then 1 else 0)
      ensures r == PreparedOne(setup, ns.meta, className, raw, objects, readFails)
      ensures readFails ==> r.Failure?
    {
      hide ShapedObject, U.RenderedTree, TemplateValues;
      readFails := false;
      if raw.Unreadable? {
        return Failure(ApplyFailed), false;
      }
      var values := ComputeTemplateValues(ns.meta, className);
      var rendered := U.RenderTemplateValue(U.Obj(raw.fields), values);
      if rendered.None? || !rendered.value.Obj? {
        return Failure(ApplyFailed), false;
      }
      r, readFails := PrepareManagedResource(rendered.value.fields, ns, className);
    }

    /** All templates in list order, up to the first that fails; broken is the index of the template whose
        API call failed, if one did. */
    method PrepareManagedResources(ns: Namespace, cls: NamespaceClass)
      returns (r: Result<seq<Prepared>, Reason>, ghost broken: nat)
      modifies this`failures
      ensures r == PreparedAll(setup, ns.meta, cls, objects, broken)
      ensures broken <= |cls.resources|
      ensures failures == old(failures) + (if broken < |cls.resources| then 1 else 0)
    {
      hide PreparedOne, Key;
      var resources: seq<Prepared> := [];
      var seen: map<string, ResourceRef> := map[];
      broken := |cls.resources|;
      for i := 0 to |cls.resources|
        invariant PreparedPrefix(setup, ns.meta, cls, objects, broken, i) == Success(resources)
        invariant broken == |cls.resources| && failures == old(failures)
        invariant seen.Keys == Keys(Refs(resources))
      {
        var one;
        ghost var readFails;
        one, readFails := PrepareTemplate(cls.resources[i], ns, cls.name);
        if readFails {
          PrefixBeforeFailure(setup, ns.meta, cls, objects, broken, i, i);
          broken := i;
        }
        if one.Failure? || Key(one.value.ref) in seen {
          r := Failure(if one.Failure? then one.error else DuplicateResource);
          assert PreparedPrefix(setup, ns.meta, cls, objects, broken, i + 1) == r;
          PrefixFails(setup, ns.meta, cls, objects, broken, i + 1, |cls.resources|);
          return;
        }
        KeysGrow(resources, one.value);
        seen := seen[Key(one.value.ref) := one.value.ref];
        resources := resources + [one.value];
      }
      r := Success(resources);
    }

    // ----- Applying -----

    /** Applies in list order up to the first failure; returns the references of what was applied. */
    method ApplyPrepared(ns: Namespace, todo: seq<Prepared>, ghost cls: NamespaceClass, ghost binding: Binding)
      returns (refs: seq<ResourceRef>, error: Option<Reason>, ghost claimed: set<ObjectId>)
      requires At(ns.meta.name, Applying(ns, binding, cls, todo, 0, Store(objects, applied, pending)))
      modifies this`objects, this`applied, this`pending, this`path, this`faults, this`failures
      ensures old(path) <= path
      ensures error.None? ==>
                && refs == Refs(todo)
                && At(ns.meta.name, Applying(ns, binding, cls, todo, |todo|, old(Store(objects, applied, pending))))
      ensures error.Some? ==>
                At(ns.meta.name, Recording(ns, Failed(binding, ns.meta.uid, cls.generation, error.value,
                                                      Merge(binding.status.inventory, refs)), claimed, false))
    {
      hide Faithful, IsPass, Next, PassStep, Merge, Claimed, Failed;
      ghost var n, start := ns.meta.name, Store(objects, applied, pending);
      refs, error, claimed := [], None, {};
      for k := 0 to |todo|
        invariant old(path) <= path
        invariant At(n, Applying(ns, binding, cls, todo, k, start))
        invariant refs == Refs(todo[..k]) && error.None?
      {
        error, claimed := ApplyOne(ns, todo, k, cls, binding, start);
        if error.Some? {
          return;
        }
        RefsPrefix(todo, k);
        refs := refs + [todo[k].ref];
      }
      assert todo[..|todo|] == todo;
    }

    /** One round of the loop. */
    method ApplyOne(ns: Namespace, todo: seq<Prepared>, k: nat, ghost cls: NamespaceClass, ghost binding: Binding,
                    ghost start: Store)
      returns (error: Option<Reason>, ghost claimed: set<ObjectId>)
      requires k < |todo| && At(ns.meta.name, Applying(ns, binding, cls, todo, k, start))
      modifies this`objects, this`applied, this`pending, this`path, this`faults, this`failures
      ensures old(path) < path
      ensures error.None? ==> At(ns.meta.name, Applying(ns, binding, cls, todo, k + 1, start))
      ensures error.Some? ==>
                At(ns.meta.name, Recording(ns, Failed(binding, ns.meta.uid, cls.generation, error.value,
                                                      Merge(binding.status.inventory, Refs(todo[..k]))),
                                           claimed, false))
    {
      hide Faithful, IsPass, Next, PassStep, ObjectOf, Recordable, Merge, ApplyFailure, Claimed, Failed;
      error, claimed := None, Claimed(path[|path| - 1].phase);
      ApplySteps(setup, path[|path| - 1]);
      var outcome := ApplyObject(todo[k], ns.meta.uid);
      match outcome {
        case Failure(reason) =>
          error := Some(reason);
          ApplyFailureRecords(path[|path| - 1], reason);
          Advance(ns.meta.name, ApplyFailure(path[|path| - 1], reason).phase);
        case Success(_) =>
          Advance(ns.meta.name, Applying(ns, binding, cls, todo, k + 1, start));
      }
    }

    /** Prepares everything, then applies. Returns the references applied, in key order when all were, and
        the reason of the failure when there was one. */
    method ApplyManagedResources(ns: Namespace, cls: NamespaceClass, ghost binding: Binding)
      returns (inventory: seq<ResourceRef>, error: Option<Reason>, ghost resources: seq<Prepared>,
               ghost claimed: set<ObjectId>)
      requires At(ns.meta.name, Bound(ns, Some(cls), binding))
      modifies this`objects, this`applied, this`pending, this`path, this`faults, this`failures
      ensures old(path) < path
      ensures error.None? ==>
                && inventory == Sorted(Refs(resources))
                && At(ns.meta.name, Deleting(ns, binding, Stale(cls, resources, old(Store(objects, applied, pending))),
                                             binding.status.inventory, inventory, 0, Store(objects, applied, pending)))
      ensures error.Some? ==>
                At(ns.meta.name, Recording(ns, Failed(binding, ns.meta.uid, cls.generation, error.value,
                                                      Merge(binding.status.inventory, inventory)), claimed, false))
    {
      hide Faithful, IsPass, Next, PassStep, Key, Keys, Sorted, Merge, PreparedAll, Failed, Claimed;
      ghost var n, start := ns.meta.name, Store(objects, applied, pending);
      inventory, error, resources, claimed := [], None, [], {};
      var prepared;
      ghost var broken;
      prepared, broken := PrepareManagedResources(ns, cls);
      PrepareSteps(setup, path[|path| - 1], broken);
      if prepared.Failure? {
        error := Some(prepared.error);
        Advance(n, Recording(ns, Failed(binding, ns.meta.uid, cls.generation, prepared.error,
                                        Merge(binding.status.inventory, [])), {}, false));
        return;
      }
      resources := prepared.value;
      Advance(n, Applying(ns, binding, cls, resources, 0, start));
      inventory, error, claimed := ApplyPrepared(ns, prepared.value, cls, binding);
      if error.None? {
        AllApplied(setup, path[|path| - 1]);
        inventory := Sorted(inventory);
        Advance(n, Deleting(ns, binding, Stale(cls, resources, start), binding.status.inventory, inventory, 0,
                            Store(objects, applied, pending)));
      }
    }

    // ----- Status -----

    /** Records a failure; the pass ends here. */
    method UpdateBindingFailureStatus(ns: Namespace, binding: Binding, classGeneration: nat, reason: Reason,
                                      inventory: seq<ResourceRef>, ghost claimed: set<ObjectId>, ghost retry: bool)
      returns (ok: bool)
      requires At(ns.meta.name, Recording(ns, Failed(binding, ns.meta.uid, classGeneration, reason, inventory),
                                          claimed, retry))
      requires Stored(ns.meta.name, binding)
      modifies this`bindings, this`pending, this`path, this`faults, this`failures
      ensures old(path) < path && Ended(ns.meta.name, !ok || retry)
      ensures ok ==> |path| >= 2 && path[|path| - 2].phase.Recording?
    {
      hide Faithful, IsPass;
      var condition := Condition(false, reason, binding.generation);
      ok := UpdateBindingStatus(ns.meta.name, Status(ns.meta.uid, classGeneration, inventory, Some(condition)));
      if ok {
        Advance(ns.meta.name, Idle);
      } else {
        GiveUp(ns.meta.name);
      }
    }

    /** The stored binding differs from b at most in its status. */
    ghost predicate Stored(name: string, b: Binding)
      reads this
    {
      name in bindings && bindings[name].(status := b.status) == b
    }

    // ----- Cleaning up -----

    /** Deleting the binding once its inventory is gone. */
    method DropBinding(ns: Namespace, ghost binding: Binding, ghost why: Why, ghost todo: seq<ResourceRef>)
      returns (ok: bool)
      requires !why.Stale? && path != [] && path[|path| - 1].phase.Deleting?
      requires At(ns.meta.name, Deleting(ns, binding, why, todo, [], |todo|, path[|path| - 1].phase.start))
      modifies this`bindings, this`pending, this`path, this`faults, this`failures
      ensures old(path) < path
      ensures if ok then At(ns.meta.name, Releasing(ns)) else Ended(ns.meta.name, true)
    {
      hide Faithful, IsPass;
      Advance(ns.meta.name, Dropping(ns));
      ok := DeleteBinding(ns.meta.name);
      if ok {
        Advance(ns.meta.name, Releasing(ns));
      } else {
        GiveUp(ns.meta.name);
      }
    }

    /** What the three cleanups have in common: delete the listed objects, then the binding; or record with the
        whole inventory that this is blocked. */
    method CleanInventory(ns: Namespace, binding: Binding, todo: seq<ResourceRef>, classGeneration: nat, reason: Reason,
                          ghost why: Why)
      returns (cleaned: bool, ok: bool)
      requires At(ns.meta.name, Deleting(ns, binding, why, todo, [], 0, Store(objects, applied, pending)))
      requires !why.Stale? && Stored(ns.meta.name, binding)
      requires if why.ClassGone? then classGeneration == 0 && reason == CleanupFailed
               else classGeneration == binding.status.observedClassGeneration && reason == DeleteFailed
      modifies this`objects, this`applied, this`pending, this`bindings, this`path, this`faults, this`failures
      ensures old(path) < path
      ensures cleaned && ok ==> At(ns.meta.name, Releasing(ns))
      ensures cleaned && !ok ==> Ended(ns.meta.name, true)
      ensures !cleaned ==> Ended(ns.meta.name, !ok || !why.LabelGone?)
      ensures !cleaned && ok ==> |path| >= 2 && path[|path| - 2].phase.Recording?
    {
      hide Faithful, IsPass, Ended;
      cleaned := DeleteStaleManagedResources(ns, todo, [], binding, why);
      if cleaned {
        ok := DropBinding(ns, binding, why, todo);
      } else {
        ok := UpdateBindingFailureStatus(ns, binding, classGeneration, reason, binding.status.inventory, {},
                                         !why.LabelGone?);
      }
    }

    /** Before a namespace goes: cluster-scoped objects, then the binding. */
    method CleanupBindingForDeletingNamespace(ns: Namespace) returns (ok: bool)
      requires At(ns.meta.name, NamespaceRead(ns)) && ns.deleting && ns.HasFinalizer()
      modifies this`objects, this`applied, this`pending, this`bindings, this`path, this`faults, this`failures
      ensures old(path) < path
      ensures if ok then At(ns.meta.name, Releasing(ns)) else Ended(ns.meta.name, true)
    {
      hide Faithful, IsPass, Ended, ClusterScoped, Next, PassStep, Fault, Abort, MustRetry;
      ghost var n := ns.meta.name;
      CleanupBegins(setup, path[|path| - 1]);
      var reply := GetBinding(ns.meta.name);
      match reply {
        case CallFailed =>
          GiveUp(n);
          return false;
        case NotFound =>
          Advance(n, Releasing(ns));
          return true;
        case Found(binding) =>
          var clusterScoped := ClusterScopedResourceRefs(binding.status.inventory);
          Advance(n, Deleting(ns, binding, NamespaceGone, clusterScoped, [], 0, Store(objects, applied, pending)));
          var cleaned;
          cleaned, ok := CleanInventory(ns, binding, clusterScoped, binding.status.observedClassGeneration,
                                        DeleteFailed, NamespaceGone);
          ok := cleaned && ok;
      }
    }

    /** After the label is gone: the whole inventory, then the binding. A failed cleanup is pending, which is
        not an error. */
    method CleanupBindingForNamespace(ns: Namespace) returns (cleanupPending: bool, ok: bool)
      requires At(ns.meta.name, NamespaceRead(ns)) && !ns.deleting && ns.ClassName() == ""
      modifies this`objects, this`applied, this`pending, this`bindings, this`path, this`faults, this`failures
      ensures old(path) < path
      ensures if ok && !cleanupPending then At(ns.meta.name, Releasing(ns)) else Ended(ns.meta.name, !ok)
      ensures cleanupPending ==> |path| >= 2 && path[|path| - 2].phase.Recording?
    {
      hide Faithful, IsPass, Ended, Next, PassStep, Fault, Abort, MustRetry;
      ghost var n := ns.meta.name;
      CleanupBegins(setup, path[|path| - 1]);
      var reply := GetBinding(ns.meta.name);
      match reply {
        case CallFailed =>
          GiveUp(n);
          return false, false;
        case NotFound =>
          Advance(n, Releasing(ns));
          return false, true;
        case Found(binding) =>
          var previousInventory := binding.status.inventory;
          Advance(n, Deleting(ns, binding, LabelGone, previousInventory, [], 0, Store(objects, applied, pending)));
          var cleaned;
          cleaned, ok := CleanInventory(ns, binding, previousInventory, binding.status.observedClassGeneration,
                                        DeleteFailed, LabelGone);
          cleanupPending := !cleaned && ok;
      }
    }

    /** The class is missing: the whole inventory, the binding, then the finalizer. */
    method CleanupMissingClass(ns: Namespace, binding: Binding) returns (ok: bool)
      requires At(ns.meta.name, Bound(ns, None, binding)) && Stored(ns.meta.name, binding)
      modifies this`namespaces, this`bindings, this`objects, this`applied, this`pending
      modifies this`path, this`faults, this`failures
      ensures old(path) < path && Ended(ns.meta.name, !ok)
    {
      hide Faithful, IsPass, Ended;
      ghost var n := ns.meta.name;
      var previousInventory := binding.status.inventory;
      Advance(n, Deleting(ns, binding, ClassGone, previousInventory, [], 0, Store(objects, applied, pending)));
      var cleaned;
      cleaned, ok := CleanInventory(ns, binding, previousInventory, 0, CleanupFailed, ClassGone);
      ok := cleaned && ok;
      if ok {
        ok := RemoveNamespaceFinalizer(ns);
      }
    }

    // ----- Reconciling a labelled namespace -----

    /** The class, or none when it does not exist. */
    method ClassCondition(ns: Namespace, className: string) returns (ok: bool, found: Option<NamespaceClass>)
      requires At(ns.meta.name, NamespaceRead(ns)) && !ns.deleting
      requires className == ns.ClassName() && className != ""
      modifies this`pending, this`path, this`faults, this`failures
      ensures old(path) < path
      ensures if ok then At(ns.meta.name, ClassRead(ns, found)) else Ended(ns.meta.name, true)
    {
      hide Faithful, IsPass;
      found := None;
      var reply := GetClass(className);
      if reply.CallFailed? {
        GiveUp(ns.meta.name);
        return false, None;
      }
      if reply.Found? {
        found := Some(reply.value);
      }
      ok := true;
      Advance(ns.meta.name, ClassRead(ns, found));
    }

    /** The binding is created or brought up to date if need be, and read back. */
    method EnsureBinding(ns: Namespace, ghost found: Option<NamespaceClass>) returns (ok: bool, binding: Binding)
      requires At(ns.meta.name, Guarded(ns, found))
      modifies this`bindings, this`pending, this`path, this`faults, this`failures
      ensures old(path) < path
      ensures if ok then At(ns.meta.name, Bound(ns, found, binding)) && Stored(ns.meta.name, binding)
              else Ended(ns.meta.name, true)
    {
      hide Faithful, IsPass, Ended, Next, PassStep, Abort, MustRetry, BindingFor;
      var name, className := ns.meta.name, ns.ClassName();
      ghost var bound := BindingFor(State(), ns);
      BindingCases(State(), ns);
      GuardedSteps(setup, path[|path| - 1]);
      binding := Binding(name, className, 0, EmptyStatus);
      var reply := GetBinding(name);
      match reply {
        case CallFailed =>
          GiveUp(name);
          return false, binding;
        case NotFound =>
          ok := CreateBinding(name, name, className);
        case Found(b) =>
          if b.namespaceName == name && b.className == className {
            Advance(name, Bound(ns, found, b));
            return true, b;
          }
          ok := UpdateBindingSpec(name, name, className);
      }
      if ok {
        Advance(name, Bound(ns, found, bound));
        ok, binding := ReadBack(ns, found, bound);
      } else {
        GiveUp(name);
      }
    }

    method ReadBack(ns: Namespace, ghost found: Option<NamespaceClass>, ghost written: Binding)
      returns (ok: bool, binding: Binding)
      requires At(ns.meta.name, Bound(ns, found, written)) && BindingHeld(State(), ns, written)
      modifies this`pending, this`path, this`faults, this`failures
      ensures old(path) <= path
      ensures if ok then At(ns.meta.name, Bound(ns, found, binding)) && Stored(ns.meta.name, binding)
              else Ended(ns.meta.name, true)
    {
      hide Faithful, IsPass, Ended, Next, PassStep, Abort, MustRetry;
      binding := Binding(ns.meta.name, ns.ClassName(), 0, EmptyStatus);
      var reply := GetBinding(ns.meta.name);
      if reply.CallFailed? {
        GiveUp(ns.meta.name);
        return false, binding;
      }
      return true, reply.value;
    }

    /** Applies and prunes for a class that exists, and records the outcome. */
    method ReconcileResources(ns: Namespace, cls: NamespaceClass, binding: Binding) returns (ok: bool)
      requires At(ns.meta.name, Bound(ns, Some(cls), binding)) && Stored(ns.meta.name, binding)
      modifies this`objects, this`applied, this`pending, this`bindings, this`path, this`faults, this`failures
      ensures old(path) < path && Ended(ns.meta.name, !ok)
    {
      hide Faithful, IsPass, Ended, Sorted, Merge, Key, Keys, ObjectOf, ObjectsOf, Claimed, PreparedAll;
      ghost var n, start := ns.meta.name, Store(objects, applied, pending);
      var previousInventory := binding.status.inventory;
      var inventory, error;
      ghost var resources, claimed;
      inventory, error, resources, claimed := ApplyManagedResources(ns, cls, binding);
      if error.Some? {
        var failedInventory := MergeResourceRefs(previousInventory, inventory);
        ok := UpdateBindingFailureStatus(ns, binding, cls.generation, error.value, failedInventory, claimed, false);
        return;
      }
      ghost var why := Stale(cls, resources, start);
      ok := DeleteStaleManagedResources(ns, previousInventory, inventory, binding, why);
      if !ok {
        SortedTwice(resources);
        var failedInventory := MergeResourceRefs(previousInventory, inventory);
        ok := UpdateBindingFailureStatus(ns, binding, cls.generation, DeleteFailed, failedInventory,
                                         path[|path| - 1].phase.claimed, false);
        return;
      }
      ok := RecordSuccess(ns, cls, binding, inventory, why);
    }

    method RecordSuccess(ns: Namespace, cls: NamespaceClass, binding: Binding, inventory: seq<ResourceRef>,
                         ghost why: Why) returns (ok: bool)
      requires why.Stale? && why.cls == cls && path != [] && path[|path| - 1].phase.Deleting?
      requires At(ns.meta.name, Deleting(ns, binding, why, binding.status.inventory, inventory,
                                         |binding.status.inventory|, path[|path| - 1].phase.start))
      requires Stored(ns.meta.name, binding)
      modifies this`bindings, this`pending, this`path, this`faults, this`failures
      ensures old(path) < path && Ended(ns.meta.name, !ok)
    {
      hide Faithful, IsPass, Claimed;
      ghost var n := ns.meta.name;
      Advance(n, Recording(ns, Succeeded(binding, ns.meta.uid, cls, inventory), Claimed(path[|path| - 1].phase),
                           false));
      var condition := Condition(true, BindingRecorded, binding.generation);
      ok := UpdateBindingStatus(ns.meta.name, Status(ns.meta.uid, cls.generation, inventory, Some(condition)));
      if ok {
        Advance(n, Idle);
      } else {
        GiveUp(n);
      }
    }

    method ReconcileBinding(ns: Namespace, className: string) returns (ok: bool)
      requires At(ns.meta.name, NamespaceRead(ns)) && !ns.deleting
      requires className == ns.ClassName() && className != ""
      modifies this`namespaces, this`bindings, this`objects, this`applied, this`pending
      modifies this`path, this`faults, this`failures
      ensures old(path) < path && Ended(ns.meta.name, !ok)
    {
      hide Faithful, IsPass, Ended;
      var found;
      ok, found := ClassCondition(ns, className);
      if !ok {
        return;
      }
      var marked := ns;
      if found.Some? {
        ok, marked := EnsureNamespaceFinalizer(ns, found.value);
        if !ok {
          return;
        }
      } else {
        Advance(ns.meta.name, Guarded(ns, None));
      }
      var binding;
      ok, binding := EnsureBinding(marked, found);
      if !ok {
        return;
      }
      match found {
        case None => ok := CleanupMissingClass(marked, binding);
        case Some(cls) => ok := ReconcileResources(marked, cls, binding);
      }
    }

    // ----- The pass -----

    /** One reconcile request. The trace it leaves is a pass of Machine from the state it found that deviates
        from the prescribed steps only where a call failed; the invariant holds afterwards; and if no call
        failed the cluster is what the fault-free pass makes of it. */
    method Reconcile(name: string) returns (ok: bool, requeueAfter: nat)
      requires Inv(setup, Config(State(), Idle))
      modifies this`namespaces, this`bindings, this`objects, this`applied, this`pending
      modifies this`path, this`faults, this`failures
      ensures Inv(setup, Config(State(), Idle))
      ensures name in old(namespaces) ==> Ended(name, !ok) && path[0].c == old(State())
      ensures name !in old(namespaces) ==> State() == old(State())
      ensures failures == 0 ==> State() == FaultFreePass(setup, old(State()), name)
      ensures requeueAfter == if ok && name in old(namespaces) && ComesBack(old(namespaces)[name]) then reconcileAfter
                              else 0
    {
      hide Inv, Faithful, IsPass, MustRetry, FaultFreePass;
      KeyedByName(setup, Config(State(), Idle), name);
      failures, faults, path, ok, requeueAfter := 0, {}, [], false, 0;
      if name in namespaces {
        path := [Config(State(), NamespaceRead(namespaces[name]))];
        PassBegins(setup, name, State());
      } else {
        NoNamespaceNoPass(setup, name, State());
      }
      var reply := GetNamespace(name);
      match reply {
        case CallFailed =>
          if name in namespaces {
            GiveUp(name);
          }
        case NotFound =>
          ok := true;
        case Found(ns) =>
          ok, requeueAfter := ReconcileNamespace(ns);
      }
      if path != [] {
        PassKeepsAll(setup, name, path, faults);
      }
    }

    /** After a success: a labelled namespace, and one whose cleanup is pending, is looked at again later. */
    ghost predicate ComesBack(ns: Namespace)
      reads this
    {
      !ns.deleting && (ns.ClassName() != "" || (|path| >= 2 && path[|path| - 2].phase.Recording?))
    }

    method ReconcileNamespace(ns: Namespace) returns (ok: bool, requeueAfter: nat)
      requires At(ns.meta.name, NamespaceRead(ns))
      modifies this`namespaces, this`bindings, this`objects, this`applied, this`pending
      modifies this`path, this`faults, this`failures
      ensures old(path) < path && Ended(ns.meta.name, !ok)
      ensures requeueAfter == if ok && ComesBack(ns) then reconcileAfter else 0
    {
      hide Faithful, IsPass;
      requeueAfter := 0;
      if ns.deleting {
        var marked := HasNamespaceFinalizer(ns);
        if marked {
          ok := CleanupBindingForDeletingNamespace(ns);
          if ok {
            ok := RemoveNamespaceFinalizer(ns);
          }
        } else {
          ok := true;
          Advance(ns.meta.name, Idle);
        }
        return;
      }
      var className := ns.ClassName();
      if className == "" {
        var cleanupPending;
        cleanupPending, ok := CleanupBindingForNamespace(ns);
        if ok && cleanupPending {
          requeueAfter := reconcileAfter;
        } else if ok {
          ok := RemoveNamespaceFinalizer(ns);
        }
        return;
      }
      ok := ReconcileBinding(ns, className);
      if ok {
        requeueAfter := reconcileAfter;
      }
    }

    // ----- Fan-out -----

    /** The requests for a class: one for every namespace bound to it, each once, in the order of the
        listing; none when the listing fails. */
    method RequestsForNamespaceClass(className: string) returns (requests: seq<string>)
      modifies this`failures
      ensures failures == old(failures) ==> forall n :: n in requests <==> n in FanOut(bindings, className)
      ensures failures != old(failures) ==> failures == old(failures) + 1 && requests == []
      ensures Unique(requests)
    {
      hide RequestsOf, RequestFor;
      requests := [];
      var ok := Call();
      if ok {
        requests := RequestsForItems(bindings, BoundTo(bindings, className));
      }
    }

    /** The loop over the listed bindings. */
    static method RequestsForItems(bindings: map<string, Binding>, listed: set<string>) returns (requests: seq<string>)
      requires listed <= bindings.Keys
      ensures forall n :: n in requests <==> n in RequestsOf(bindings, listed)
      ensures Unique(requests)
    {
      hide RequestFor, RequestsOf, Unique;
      requests := [];
      var items, seen: set<string> := listed, {};
      ghost var done: set<string> := {};
      NoRequests(bindings);
      while items != {}
        invariant items <= listed && done + items == listed
        invariant Collected(bindings, done, seen, requests)
        decreases |items|
      {
        var name :| name in items;
        var request := RequestFor(name, bindings[name]);
        CollectOne(bindings, done, seen, requests, name);
        items, done := items - {name}, done + {name};
        if request == "" || request in seen {
          continue;
        }
        seen := seen + {request};
        requests := requests + [request];
      }
      assert done == listed;
    }

    /** The request for a binding: the namespace it names. */
    static method RequestsForNamespaceClassBinding(name: string, b: Binding) returns (requests: seq<string>)
      ensures |requests| <= 1
      ensures forall n :: n in requests <==> n != "" && (n == b.namespaceName || (b.namespaceName == "" && n == name))
    {
      var namespaceName := b.namespaceName;
      if namespaceName == "" {
        namespaceName := name;
      }
      if namespaceName == "" {
        return [];
      }
      return [namespaceName];
    }
  }

  lemma StepBounds(setup: Setup, s: Config, s': Config)
    requires PassStep(setup, s, s')
    ensures InBounds(s'.phase)
  {
    hide Next, PreparedAll, Merge, Sorted, ObjectsOf, Key, Keys, ObjectOf;
  }
}
