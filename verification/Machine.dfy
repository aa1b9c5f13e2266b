/** One reconcile pass as a state machine over its API calls, interleaved with the rest of the cluster. */
module Machine {
  import opened Wrappers
  import opened ResourceRefs
  import opened Cluster
  import opened Prepare
  import U = Unstructured

  // ----- Phases of a pass -----

  /** Why a pass deletes recorded objects. */
  datatype Why =
    | NamespaceGone
    | LabelGone
    | ClassGone
    | Stale(cls: NamespaceClass, resources: seq<Prepared>, base: Store)

  /** Where a pass is and what it holds in its local variables. `start` remembers the store at the start of
      a loop, and `base` the store before the first object was applied. */
  datatype Phase =
    | Idle
    | NamespaceRead(ns: Namespace)
    | ClassRead(ns: Namespace, found: Option<NamespaceClass>)
    | Guarded(ns: Namespace, found: Option<NamespaceClass>)
    | Bound(ns: Namespace, found: Option<NamespaceClass>, binding: Binding)
    | Applying(ns: Namespace, binding: Binding, cls: NamespaceClass, resources: seq<Prepared>, k: nat, start: Store)
    | Deleting(ns: Namespace, binding: Binding, why: Why, todo: seq<ResourceRef>, keep: seq<ResourceRef>,
               i: nat, start: Store)
    | Recording(ns: Namespace, binding: Binding, claimed: set<ObjectId>, retry: bool)
    | Dropping(ns: Namespace)
    | Releasing(ns: Namespace)

  datatype Config = Config(c: Cluster, phase: Phase)

  function ClusterScoped(refs: seq<ResourceRef>): seq<ResourceRef> {
    if refs == [] then [] else
      var last := refs[|refs| - 1];
      ClusterScoped(refs[..|refs| - 1]) + (if last.namespace == "" then [last] else [])
  }

  function ApplyAll(store: Store, uid: string, resources: seq<Prepared>): Store {
    if resources == [] then store else
      var before := ApplyAll(store, uid, resources[..|resources| - 1]);
      var p := resources[|resources| - 1];
      if ObjectOf(p.ref).Some? then before.Apply(ObjectOf(p.ref).value, p.content, uid) else before
  }

  /** The objects named by the references of todo that keep does not hold. */
  function StaleObjects(todo: seq<ResourceRef>, keep: seq<ResourceRef>): set<ObjectId> {
    set r | r in todo && Key(r) !in Keys(keep) && ObjectOf(r).Some? :: ObjectOf(r).value
  }

  /** The objects the pass has applied and not yet recorded. */
  function Claimed(phase: Phase): set<ObjectId> {
    match phase
    case Applying(_, _, _, resources, k, _) => if k <= |resources| then ObjectsOf(Refs(resources[..k])) else {}
    case Deleting(_, _, Stale(_, resources, _), _, _, _, _) => ObjectsOf(Refs(resources))
    case Recording(_, _, claimed, _) => claimed
    case _ => {}
  }

  /** The objects named by the inventory stored for a namespace. */
  function Recorded(c: Cluster, n: string): set<ObjectId> {
    if n in c.bindings then ObjectsOf(c.bindings[n].status.inventory) else {}
  }

  // ----- What is written -----

  function WithFinalizer(ns: Namespace): Namespace {
    ns.(finalizers := ns.finalizers + [Finalizer])
  }

  function Without(finalizers: seq<string>, f: string): seq<string> {
    if finalizers == [] then [] else
      var last := finalizers[|finalizers| - 1];
      Without(finalizers[..|finalizers| - 1], f) + (if last != f then [last] else [])
  }

  function WithoutFinalizer(ns: Namespace): Namespace {
    ns.(finalizers := Without(ns.finalizers, Finalizer))
  }

  /** The binding a pass works with: created, brought up to date, or as it is. */
  function BindingFor(c: Cluster, ns: Namespace): Binding {
    var n := ns.meta.name;
    if n !in c.bindings then Binding(n, ns.ClassName(), 1, EmptyStatus)
    else
      var b := c.bindings[n];
      if b.namespaceName == n && b.className == ns.ClassName() then b
      else b.(namespaceName := n, className := ns.ClassName(), generation := b.generation + 1)
  }

  function Failed(b: Binding, uid: string, classGeneration: nat, reason: Reason, inventory: seq<ResourceRef>): Binding {
    b.(status := Status(uid, classGeneration, inventory, Some(Condition(false, reason, b.generation))))
  }

  function Succeeded(b: Binding, uid: string, cls: NamespaceClass, inventory: seq<ResourceRef>): Binding {
    b.(status := Status(uid, cls.generation, inventory, Some(Condition(true, BindingRecorded, b.generation))))
  }

  /** The status reports a success for the binding as it is now. */
  predicate ReportsReady(b: Binding) {
    && b.status.condition.Some?
    && b.status.condition.value.ready
    && b.status.condition.value.observedGeneration == b.generation
  }

  // ----- Failing branches -----

  /** All templates are prepared before any object is applied. */
  function AfterPrepare(setup: Setup, s: Config, broken: nat): Config
    requires s.phase.Bound? && s.phase.found.Some?
  {
    var ns, b, cls := s.phase.ns, s.phase.binding, s.phase.found.value;
    match PreparedAll(setup, ns.meta, cls, s.c.store.objects, broken)
    case Success(resources) =>
      s.(phase := Applying(ns, b, cls, resources, 0, s.c.store))
    case Failure(reason) =>
      s.(phase := Recording(ns, Failed(b, ns.meta.uid, cls.generation, reason, Merge(b.status.inventory, [])),
                            {}, false))
  }

  function ApplyFailure(s: Config, reason: Reason): Config
    requires s.phase.Applying? && s.phase.k <= |s.phase.resources|
  {
    var ns, b, cls := s.phase.ns, s.phase.binding, s.phase.cls;
    var applied := Refs(s.phase.resources[..s.phase.k]);
    s.(phase := Recording(ns, Failed(b, ns.meta.uid, cls.generation, reason, Merge(b.status.inventory, applied)),
                          Claimed(s.phase), false))
  }

  function DeleteFailure(s: Config): Config
    requires s.phase.Deleting?
  {
    var ns, b, uid := s.phase.ns, s.phase.binding, s.phase.ns.meta.uid;
    var inventory, generation := b.status.inventory, b.status.observedClassGeneration;
    match s.phase.why
    case NamespaceGone =>
      s.(phase := Recording(ns, Failed(b, uid, generation, DeleteFailed, inventory), {}, true))
    case LabelGone =>
      s.(phase := Recording(ns, Failed(b, uid, generation, DeleteFailed, inventory), {}, false))
    case ClassGone =>
      s.(phase := Recording(ns, Failed(b, uid, 0, CleanupFailed, inventory), {}, true))
    case Stale(cls, resources, _) =>
      s.(phase := Recording(ns, Failed(b, uid, cls.generation, DeleteFailed,
                                       Merge(inventory, Sorted(Refs(resources)))),
                            Claimed(s.phase), false))
  }

  /** The pass ends where it is: an API call fails whose error is returned, or the process stops. Objects
      it has applied and that no inventory names are left pending. */
  function Abort(s: Config): Config
    requires !s.phase.Idle?
  {
    var left := set id | id in Claimed(s.phase) && id in s.c.store.applied
                         && id !in Recorded(s.c, s.phase.ns.meta.name);
    Config(s.c.(store := s.c.store.(pending := s.c.store.pending + left)), Idle)
  }

  // ----- One step of a pass without failing calls -----

  function AfterNamespaceRead(s: Config): Config
    requires s.phase.NamespaceRead?
  {
    var c, ns, n := s.c, s.phase.ns, s.phase.ns.meta.name;
    if ns.deleting then
      if !ns.HasFinalizer() then s.(phase := Idle)
      else if n in c.bindings then
        var b := c.bindings[n];
        s.(phase := Deleting(ns, b, NamespaceGone, ClusterScoped(b.status.inventory), [], 0, c.store))
      else s.(phase := Releasing(ns))
    else if ns.ClassName() == "" then
      if n in c.bindings then
        var b := c.bindings[n];
        s.(phase := Deleting(ns, b, LabelGone, b.status.inventory, [], 0, c.store))
      else s.(phase := Releasing(ns))
    else
      s.(phase := ClassRead(ns, if ns.ClassName() in c.classes then Some(c.classes[ns.ClassName()]) else None))
  }

  function AfterClassRead(s: Config): Config
    requires s.phase.ClassRead?
  {
    var ns, found := s.phase.ns, s.phase.found;
    if found.Some? && !ns.HasFinalizer() then
      Config(s.c.(namespaces := s.c.namespaces[ns.meta.name := WithFinalizer(ns)]),
             Guarded(WithFinalizer(ns), found))
    else
      s.(phase := Guarded(ns, found))
  }

  function AfterGuarded(s: Config): Config
    requires s.phase.Guarded?
  {
    var ns, found := s.phase.ns, s.phase.found;
    var b := BindingFor(s.c, ns);
    Config(s.c.(bindings := s.c.bindings[ns.meta.name := b]), Bound(ns, found, b))
  }

  function AfterBound(setup: Setup, s: Config): Config
    requires s.phase.Bound?
  {
    var ns, b := s.phase.ns, s.phase.binding;
    match s.phase.found
    case None => s.(phase := Deleting(ns, b, ClassGone, b.status.inventory, [], 0, s.c.store))
    case Some(cls) => AfterPrepare(setup, s, |cls.resources|)
  }

  /** The API server stores an object only under a name without slashes and a readable API version. */
  function AfterApplying(s: Config): Config
    requires s.phase.Applying? && s.phase.k <= |s.phase.resources|
  {
    var c, ns, k, resources := s.c, s.phase.ns, s.phase.k, s.phase.resources;
    if k == |resources| then
      s.(phase := Deleting(ns, s.phase.binding, Stale(s.phase.cls, resources, s.phase.start),
                           s.phase.binding.status.inventory, Sorted(Refs(resources)), 0, c.store))
    else if Recordable(resources[k].ref) then
      Config(c.(store := c.store.Apply(ObjectOf(resources[k].ref).value, resources[k].content, ns.meta.uid)),
             s.phase.(k := k + 1))
    else
      ApplyFailure(s, ApplyFailed)
  }

  function AfterDeleting(s: Config): Config
    requires s.phase.Deleting? && s.phase.i <= |s.phase.todo|
  {
    var c, ns, i, todo := s.c, s.phase.ns, s.phase.i, s.phase.todo;
    if i == |todo| then
      match s.phase.why
      case Stale(cls, resources, _) =>
        s.(phase := Recording(ns, Succeeded(s.phase.binding, ns.meta.uid, cls, s.phase.keep),
                              Claimed(s.phase), false))
      case _ => s.(phase := Dropping(ns))
    else if Key(todo[i]) in Keys(s.phase.keep) then s.(phase := s.phase.(i := i + 1))
    else match ObjectOf(todo[i])
         case None => DeleteFailure(s)
         case Some(id) =>
           if id !in c.store.objects then s.(phase := s.phase.(i := i + 1))
           else if !U.IsManagedBy(c.store.objects[id], ns.meta.uid) then DeleteFailure(s)
           else Config(c.(store := c.store.Remove({id})), s.phase.(i := i + 1))
  }

  function AfterRecording(s: Config): Config
    requires s.phase.Recording?
  {
    Config(s.c.(bindings := s.c.bindings[s.phase.ns.meta.name := s.phase.binding]), Idle)
  }

  function AfterDropping(s: Config): Config
    requires s.phase.Dropping?
  {
    Config(s.c.(bindings := s.c.bindings - {s.phase.ns.meta.name}), Releasing(s.phase.ns))
  }

  function AfterReleasing(s: Config): Config
    requires s.phase.Releasing?
  {
    var ns := s.phase.ns;
    if ns.HasFinalizer() then
      Config(s.c.(namespaces := s.c.namespaces[ns.meta.name := WithoutFinalizer(ns)]), Idle)
    else
      s.(phase := Idle)
  }

  /** Loop counters stay inside their lists. */
  predicate InBounds(phase: Phase) {
    && (phase.Applying? ==> phase.k <= |phase.resources|)
    && (phase.Deleting? ==> phase.i <= |phase.todo|)
  }

  function Next(setup: Setup, s: Config): (s': Config)
    requires InBounds(s.phase)
    ensures InBounds(s'.phase)
  {
    match s.phase
    case Idle => s
    case NamespaceRead(_) => AfterNamespaceRead(s)
    case ClassRead(_, _) => AfterClassRead(s)
    case Guarded(_, _) => AfterGuarded(s)
    case Bound(_, _, _) => AfterBound(setup, s)
    case Applying(_, _, _, _, _, _) => AfterApplying(s)
    case Deleting(_, _, _, _, _, _, _) => AfterDeleting(s)
    case Recording(_, _, _, _) => AfterRecording(s)
    case Dropping(_) => AfterDropping(s)
    case Releasing(_) => AfterReleasing(s)
  }

  /** How far a phase is from the end of the pass. */
  function Rank(phase: Phase): nat {
    match phase
    case Idle => 0
    case NamespaceRead(_) => 9
    case ClassRead(_, _) => 8
    case Guarded(_, _) => 7
    case Bound(_, _, _) => 6
    case Applying(_, _, _, _, _, _) => 5
    case Deleting(_, _, _, _, _, _, _) => 4
    case Dropping(_) => 3
    case Releasing(_) => 2
    case Recording(_, _, _, _) => 1
  }

  function LeftInLoop(phase: Phase): nat
    requires InBounds(phase)
  {
    match phase
    case Applying(_, _, _, resources, k, _) => |resources| - k
    case Deleting(_, _, _, todo, _, i, _) => |todo| - i
    case _ => 0
  }

  /** The pass run to its end without a failing call. */
  function Drive(setup: Setup, s: Config): (s': Config)
    requires InBounds(s.phase)
    ensures s'.phase.Idle?
    decreases Rank(s.phase), LeftInLoop(s.phase)
  {
    if s.phase.Idle? then s else Drive(setup, Next(setup, s))
  }

  // ----- Steps -----

  /** A call of the pass fails, without effect on the cluster. */
  ghost predicate Fault(setup: Setup, s: Config, s': Config)
    requires InBounds(s.phase)
  {
    || (!s.phase.Idle? && s' == Abort(s))
    || (s.phase.Bound? && s.phase.found.Some? && exists broken :: s' == AfterPrepare(setup, s, broken))
    || (s.phase.Applying? && s.phase.k < |s.phase.resources|
        && (s' == ApplyFailure(s, ApplyFailed) || s' == ApplyFailure(s, ApplyConflict)))
    || (s.phase.Deleting? && s.phase.i < |s.phase.todo|
        && Key(s.phase.todo[s.phase.i]) !in Keys(s.phase.keep) && ObjectOf(s.phase.todo[s.phase.i]).Some?
        && s' == DeleteFailure(s))
  }

  ghost predicate PassStep(setup: Setup, s: Config, s': Config) {
    !s.phase.Idle? && InBounds(s.phase) && (s' == Next(setup, s) || Fault(setup, s, s'))
  }

  /** A pass for a namespace name starts by reading the namespace; there may be none. */
  function Begin(s: Config, n: string): Config {
    s.(phase := if n in s.c.namespaces then NamespaceRead(s.c.namespaces[n]) else Idle)
  }

  /** One pass for n without a failing call. */
  function FaultFreePass(setup: Setup, c: Cluster, n: string): Cluster {
    Drive(setup, Begin(Config(c, Idle), n)).c
  }

  /** The states one pass goes through: from its first read to wherever it ends or is cut off. */
  ghost predicate IsPass(setup: Setup, n: string, path: seq<Config>) {
    && path != []
    && n in path[0].c.namespaces
    && path[0].phase == NamespaceRead(path[0].c.namespaces[n])
    && forall i | 0 <= i < |path| - 1 :: PassStep(setup, path[i], path[i + 1])
  }

  /** What users, other controllers and the garbage collector do. They leave bindings and the controller's
      finalizer alone. */
  datatype Action =
    | CreateNamespace(ns: Namespace)
    | EditNamespace(ns: Namespace)
    | RemoveNamespace(name: string)
    | PutClass(cls: NamespaceClass)
    | DeleteClass(name: string)
    | PutObject(id: ObjectId, content: U.Fields)
    | DeleteObject(id: ObjectId)

  /** Classes change at any time; the rest changes between passes, so that a pass reads fresh state. */
  ghost predicate Allowed(s: Config, a: Action) {
    match a
    case CreateNamespace(ns) =>
      s.phase.Idle? && ns.meta.name !in s.c.namespaces && ns.meta.uid !in s.c.uids && !ns.deleting
    case EditNamespace(ns) =>
      && s.phase.Idle? && ns.meta.name in s.c.namespaces
      && var before := s.c.namespaces[ns.meta.name];
         && ns.meta.uid == before.meta.uid
         && (ns.HasFinalizer() <==> before.HasFinalizer())
         && (before.deleting ==> ns.deleting)
    case RemoveNamespace(n) =>
      && s.phase.Idle? && n in s.c.namespaces
      && s.c.namespaces[n].deleting && s.c.namespaces[n].finalizers == []
      && forall id | id in s.c.store.objects :: id.namespace != n
    case PutClass(cls) =>
      cls.generation == (if cls.name in s.c.classes then s.c.classes[cls.name].generation + 1 else 1)
    case DeleteClass(name) => name in s.c.classes
    case PutObject(_, _) => s.phase.Idle?
    case DeleteObject(_) => s.phase.Idle?
  }

  function Do(c: Cluster, a: Action): Cluster {
    match a
    case CreateNamespace(ns) =>
      c.(namespaces := c.namespaces[ns.meta.name := ns], uids := c.uids + {ns.meta.uid})
    case EditNamespace(ns) =>
      c.(namespaces := c.namespaces[ns.meta.name := ns])
    case RemoveNamespace(n) => c.(namespaces := c.namespaces - {n})
    case PutClass(cls) => c.(classes := c.classes[cls.name := cls])
    case DeleteClass(name) => c.(classes := c.classes - {name})
    case PutObject(id, content) => c.(store := c.store.(objects := c.store.objects[id := content]))
    case DeleteObject(id) => c.(store := c.store.Remove({id}))
  }

  ghost predicate EnvStep(s: Config, s': Config) {
    exists a :: Allowed(s, a) && s' == s.(c := Do(s.c, a))
  }

  ghost predicate Step(setup: Setup, s: Config, s': Config) {
    || (s.phase.Idle? && exists n :: s' == Begin(s, n))
    || PassStep(setup, s, s')
    || EnvStep(s, s')
  }

  /** A cluster the controller has not touched yet. */
  ghost predicate Init(s: Config) {
    && s.phase.Idle?
    && s.c.bindings == map[] && s.c.store.applied == map[] && s.c.store.pending == {}
    && (forall n | n in s.c.namespaces :: s.c.namespaces[n].meta.name == n)
    && (forall n, m | n in s.c.namespaces && m in s.c.namespaces ::
          s.c.namespaces[n].meta.uid == s.c.namespaces[m].meta.uid ==> n == m)
    && (forall k | k in s.c.classes :: s.c.classes[k].name == k)
    && (forall n | n in s.c.namespaces :: s.c.namespaces[n].meta.uid in s.c.uids)
  }

  ghost predicate IsRun(setup: Setup, run: seq<Config>) {
    && run != [] && Init(run[0])
    && forall i | 0 <= i < |run| - 1 :: Step(setup, run[i], run[i + 1])
  }

  ghost predicate Reachable(setup: Setup, s: Config) {
    exists run :: IsRun(setup, run) && run[|run| - 1] == s
  }
}
