/** Watches, event predicates and the work queue around the pass: no class update is lost. */
module Wakeup {
  import opened Wrappers
  import opened ResourceRefs
  import opened Cluster
  import opened Prepare
  import opened Machine
  import opened Invariants
  import opened Steps
  import opened Safety
  import U = Unstructured

  // ----- Events and the predicates that filter them -----

  function Find<K(==), V>(m: map<K, V>, k: K): Option<V> {
    if k in m then Some(m[k]) else None
  }

  /** Creations and deletions pass, and updates that change the generation. */
  predicate ClassEventPasses(before: Option<NamespaceClass>, after: Option<NamespaceClass>) {
    match (before, after)
    case (None, None) => false
    case (Some(a), Some(b)) => a.generation != b.generation
    case _ => true
  }

  predicate BindingEventPasses(before: Option<Binding>, after: Option<Binding>) {
    match (before, after)
    case (None, None) => false
    case (Some(a), Some(b)) => a.generation != b.generation
    case _ => true
  }

  /** A namespace or binding event asks for one namespace; a class event fans out when it is delivered. */
  datatype Event =
    | NamespaceEvent(namespaceName: string)
    | BindingEvent(namespaceName: string)
    | ClassEvent(className: string)

  /** The namespace a binding asks to reconcile; "" for none. */
  function RequestFor(name: string, b: Binding): string {
    if b.namespaceName == "" then name else b.namespaceName
  }

  /** The request a change of a binding leads to: by the new object, or by the old one when it is gone. */
  function BindingRequest(name: string, before: Option<Binding>, after: Option<Binding>): string {
    match (before, after)
    case (_, Some(b)) => RequestFor(name, b)
    case (Some(b), None) => RequestFor(name, b)
    case (None, None) => ""
  }

  /** The events a change of the cluster causes, after filtering. Namespace events are not filtered. */
  function Emitted(c: Cluster, c': Cluster): set<Event> {
    (set n | n in c.namespaces.Keys + c'.namespaces.Keys && Find(c.namespaces, n) != Find(c'.namespaces, n)
       :: NamespaceEvent(n))
    + (set n | n in c.bindings.Keys + c'.bindings.Keys
               && BindingEventPasses(Find(c.bindings, n), Find(c'.bindings, n))
               && BindingRequest(n, Find(c.bindings, n), Find(c'.bindings, n)) != ""
         :: BindingEvent(BindingRequest(n, Find(c.bindings, n), Find(c'.bindings, n))))
    + (set k | k in c.classes.Keys + c'.classes.Keys
               && ClassEventPasses(Find(c.classes, k), Find(c'.classes, k))
         :: ClassEvent(k))
  }

  // ----- Requests -----

  /** The index of bindings by class; a binding without a class is not in it. */
  function IndexKeys(b: Binding): seq<string> {
    if b.className == "" then [] else [b.className]
  }

  /** What the bindings of these names ask for. */
  function RequestsOf(bindings: map<string, Binding>, names: set<string>): set<string> {
    set n | n in names && n in bindings && RequestFor(n, bindings[n]) != "" :: RequestFor(n, bindings[n])
  }

  function BoundTo(bindings: map<string, Binding>, className: string): set<string> {
    set n | n in bindings && className in IndexKeys(bindings[n])
  }

  /** The namespaces bound to a class. */
  function FanOut(bindings: map<string, Binding>, className: string): set<string> {
    RequestsOf(bindings, BoundTo(bindings, className))
  }

  lemma RequestsOfOneMore(bindings: map<string, Binding>, names: set<string>, n: string)
    requires n in bindings
    ensures RequestsOf(bindings, names + {n})
            == RequestsOf(bindings, names)
               + (if RequestFor(n, bindings[n]) == "" then {} else {RequestFor(n, bindings[n])})
  {
    hide RequestFor;
  }

  function Requests(c: Cluster, e: Event): set<string> {
    match e
    case NamespaceEvent(n) => {n}
    case BindingEvent(n) => {n}
    case ClassEvent(k) => FanOut(c.bindings, k)
  }

  // ----- The system -----

  /** The class a pass read for a namespace: the label it followed and what was there. */
  datatype Reading = Reading(className: string, found: Option<NamespaceClass>)

  /** `readings` is history: the last class read for each namespace. */
  datatype World = World(s: Config, queue: set<string>, events: set<Event>, readings: map<string, Reading>)

  function ReadingsAfter(w: World, s': Config): map<string, Reading> {
    if w.s.phase.NamespaceRead? && s'.phase.ClassRead? then
      w.readings[w.s.phase.ns.meta.name := Reading(w.s.phase.ns.ClassName(), s'.phase.found)]
    else w.readings
  }

  /** The pass returns an error, so its namespace is queued again. */
  ghost predicate MustRetry(setup: Setup, s: Config, s': Config)
    requires InBounds(s.phase)
  {
    s'.phase.Idle? && (s' != Next(setup, s) || (s.phase.Recording? && s.phase.retry))
  }

  ghost predicate PassMoves(setup: Setup, w: World, w': World) {
    && PassStep(setup, w.s, w'.s)
    && w'.events == w.events + Emitted(w.s.c, w'.s.c)
    && w'.readings == ReadingsAfter(w, w'.s)
    && var n := w.s.phase.ns.meta.name;
       && (w'.queue == w.queue || w'.queue == w.queue + {n})
       && (MustRetry(setup, w.s, w'.s) ==> n in w'.queue)
  }

  ghost predicate EnvMoves(w: World, w': World) {
    EnvStep(w.s, w'.s) && w' == w.(s := w'.s, events := w.events + Emitted(w.s.c, w'.s.c))
  }

  ghost predicate Delivers(w: World, w': World) {
    exists e :: e in w.events && w' == w.(events := w.events - {e}, queue := w.queue + Requests(w.s.c, e))
  }

  ghost predicate Dequeues(w: World, w': World) {
    w.s.phase.Idle? && exists n :: n in w.queue && w' == w.(queue := w.queue - {n}, s := Begin(w.s, n))
  }

  /** The periodic requeue; the property below does not depend on it. */
  ghost predicate Requeues(w: World, w': World) {
    exists n :: w' == w.(queue := w.queue + {n})
  }

  /** The process restarts: queue and undelivered events are lost, and the first listing queues every
      namespace. */
  ghost predicate Restarts(w: World, w': World) {
    w' == World(if w.s.phase.Idle? then w.s else Abort(w.s), w.s.c.namespaces.Keys, {}, w.readings)
  }

  ghost predicate WorldStep(setup: Setup, w: World, w': World) {
    || PassMoves(setup, w, w') || EnvMoves(w, w') || Delivers(w, w') || Dequeues(w, w')
    || Requeues(w, w') || Restarts(w, w')
  }

  ghost predicate WorldInit(w: World) {
    Init(w.s) && w.queue == w.s.c.namespaces.Keys && w.events == {} && w.readings == map[]
  }

  ghost predicate IsWorldRun(setup: Setup, run: seq<World>) {
    && run != [] && WorldInit(run[0])
    && forall i | 0 <= i < |run| - 1 :: WorldStep(setup, run[i], run[i + 1])
  }

  // ----- Attention -----

  /** The namespace will be reconciled from the start: it is queued, an event for it is undelivered, or a
      pass for it has not read its class yet. */
  predicate Waiting(w: World, n: string) {
    || n in w.queue || NamespaceEvent(n) in w.events || BindingEvent(n) in w.events
    || (w.s.phase.NamespaceRead? && w.s.phase.ns.meta.name == n)
  }

  predicate Matches(c: Cluster, n: string)
    requires n in c.namespaces
  {
    n in c.bindings && c.bindings[n].className == c.namespaces[n].ClassName()
  }

  /** A pass has read the class and its coming write of the binding will raise an event: the window in which
      the fan-out cannot find the namespace. */
  predicate AboutToBind(w: World, n: string)
    requires n in w.s.c.namespaces
  {
    (w.s.phase.ClassRead? || w.s.phase.Guarded?) && w.s.phase.ns.meta.name == n && !Matches(w.s.c, n)
  }

  function CurrentClass(c: Cluster, n: string): Option<NamespaceClass>
    requires n in c.namespaces
  {
    Find(c.classes, c.namespaces[n].ClassName())
  }

  /** The status speaks about the class generation read and about the binding as it is. */
  predicate StatusCurrent(b: Binding, found: Option<NamespaceClass>) {
    && found.Some? && b.status.observedClassGeneration == found.value.generation
    && b.status.condition.Some? && b.status.condition.value.observedGeneration == b.generation
  }

  predicate InPass(s: Config, n: string) {
    !s.phase.Idle? && s.phase.ns.meta.name == n
  }

  /** The last pass read the class version that is current, or the class's own event is undelivered and its
      fan-out will find the namespace; and the outcome is recorded unless the pass is still running. */
  predicate UpToDate(w: World, n: string)
    requires n in w.s.c.namespaces
  {
    && n in w.readings
    && w.readings[n].className == w.s.c.namespaces[n].ClassName()
    && Matches(w.s.c, n)
    && (w.readings[n].found == CurrentClass(w.s.c, n) || ClassEvent(w.readings[n].className) in w.events)
    && (InPass(w.s, n) || StatusCurrent(w.s.c.bindings[n], w.readings[n].found))
  }

  ghost predicate Attended(w: World, n: string)
    requires n in w.s.c.namespaces
  {
    Waiting(w, n) || AboutToBind(w, n) || UpToDate(w, n)
  }

  ghost predicate AllAttended(w: World) {
    forall n | n in w.s.c.namespaces && n != "" && Labelled(w.s.c.namespaces[n]) :: Attended(w, n)
  }

  /** The pass works with the class it read, and the outcome it is about to record says so. */
  predicate WorksWith(phase: Phase, found: Option<NamespaceClass>) {
    match phase
    case ClassRead(_, f) => f == found
    case Guarded(_, f) => f == found
    case Bound(_, f, _) => f == found
    case Applying(_, _, cls, _, _, _) => found == Some(cls)
    case Deleting(_, b, why, _, _, _, _) =>
      if why.Stale? then found == Some(why.cls) else why.ClassGone? && found.None?
    case Recording(_, b, _, retry) => retry || StatusCurrent(b, found)
    case _ => true
  }

  /** What the pass holds is what was read for its namespace. */
  predicate PhaseMatchesReading(w: World) {
    !w.s.phase.Idle? && Labelled(w.s.phase.ns) && w.s.phase.ns.meta.name != "" && !w.s.phase.NamespaceRead? ==>
      var n := w.s.phase.ns.meta.name;
      && n in w.readings && w.readings[n].className == w.s.phase.ns.ClassName()
      && WorksWith(w.s.phase, w.readings[n].found)
      && (w.s.phase.Releasing? ==> n !in w.s.c.bindings)
  }

  ghost predicate WorldInv(setup: Setup, w: World) {
    Inv(setup, w.s) && AllAttended(w) && PhaseMatchesReading(w)
  }

  lemma WorldInitInv(setup: Setup, w: World)
    requires WorldInit(w)
    ensures WorldInv(setup, w)
  {
    InitInv(setup, w.s);
  }

  // ----- Events raised by a change -----

  lemma NamespaceChangeSeen(c: Cluster, c': Cluster, n: string)
    requires Find(c.namespaces, n) != Find(c'.namespaces, n)
    ensures NamespaceEvent(n) in Emitted(c, c')
  {
    assert n in c.namespaces.Keys + c'.namespaces.Keys;
  }

  lemma BindingChangeSeen(c: Cluster, c': Cluster, n: string)
    requires n != "" && Named(c) && Named(c')
    requires BindingEventPasses(Find(c.bindings, n), Find(c'.bindings, n))
    ensures BindingEvent(n) in Emitted(c, c')
  {
    assert n in c.bindings.Keys + c'.bindings.Keys;
    assert BindingRequest(n, Find(c.bindings, n), Find(c'.bindings, n)) == n;
  }

  lemma ClassChangeSeen(c: Cluster, c': Cluster, k: string)
    requires ClassEventPasses(Find(c.classes, k), Find(c'.classes, k))
    ensures ClassEvent(k) in Emitted(c, c')
  {
    assert k in c.classes.Keys + c'.classes.Keys;
  }

  // ----- A namespace outside the pass -----

  /** Nothing that attention for n depends on has changed, or more events and requests are waiting. */
  lemma AttendedFrame(w: World, w': World, n: string)
    requires n in w.s.c.namespaces && n in w'.s.c.namespaces
    requires w'.s.c.namespaces[n] == w.s.c.namespaces[n]
    requires Find(w'.s.c.bindings, n) == Find(w.s.c.bindings, n)
    requires w'.s.c.classes == w.s.c.classes
    requires Find(w'.readings, n) == Find(w.readings, n)
    requires w.queue <= w'.queue + {n} && w.events <= w'.events
    requires n in w.queue ==> n in w'.queue
    requires InPass(w.s, n) <==> InPass(w'.s, n)
    requires InPass(w.s, n) ==> w'.s.phase == w.s.phase
    requires Attended(w, n)
    ensures Attended(w', n)
  {
  }

  lemma PassKeepsOthersAttended(setup: Setup, w: World, w': World, m: string)
    requires WorldInv(setup, w) && PassMoves(setup, w, w') && m != w.s.phase.ns.meta.name
    requires m in w'.s.c.namespaces && m != "" && Labelled(w'.s.c.namespaces[m])
    ensures Attended(w', m)
  {
    hide ClusterInv, PhaseOk, Covered, PassStep, MustRetry, PhaseMatchesReading, Emitted, Labelled, Attended;
    StepKeepsOthers(setup, w.s, w'.s, m);
    StepKeepsClasses(setup, w.s, w'.s);
    PassKeepsNamespace(setup, w.s, w'.s);
    PassStepActive(setup, w.s, w'.s);
    AttendedFrame(w, w', m);
  }

  // ----- The namespace of the pass -----

  lemma Waits(w: World, n: string)
    requires n in w.s.c.namespaces && Waiting(w, n)
    ensures Attended(w, n)
  {
  }

  /** What every step of a pass for n leaves to prove about n. */
  ghost predicate PassStart(setup: Setup, w: World, w': World, n: string) {
    && WorldInv(setup, w) && PassMoves(setup, w, w')
    && n == w.s.phase.ns.meta.name && n != ""
    && n in w.s.c.namespaces && Labelled(w.s.phase.ns)
  }

  lemma AttendedAtStart(setup: Setup, w: World, w': World, n: string)
    requires PassStart(setup, w, w', n)
    ensures Attended(w, n) && w.s.c.namespaces[n] == w.s.phase.ns
    ensures Named(w.s.c) && InBounds(w.s.phase)
    ensures PassStep(setup, w.s, w'.s) && !w.s.phase.Idle?
    ensures w.queue <= w'.queue && w.events <= w'.events
    ensures !w.s.phase.NamespaceRead? ==> w'.readings == w.readings
  {
    hide Attended, PhaseMatchesReading, Covered, PassStep, MustRetry, Emitted;
    PassStepActive(setup, w.s, w'.s);
  }

  lemma ClassReadAttends(setup: Setup, w: World, w': World, n: string)
    requires PassStart(setup, w, w', n) && w.s.phase.NamespaceRead? && w'.s == Next(setup, w.s)
    requires n in w'.s.c.namespaces
    ensures Attended(w', n) && PhaseMatchesReading(w')
  {
    hide WorldInv, PassStep, MustRetry, Emitted;
    AttendedAtStart(setup, w, w', n);
  }

  lemma GuardAttends(setup: Setup, w: World, w': World, n: string)
    requires PassStart(setup, w, w', n) && w.s.phase.ClassRead? && w'.s == Next(setup, w.s)
    requires n in w'.s.c.namespaces
    ensures Attended(w', n) && PhaseMatchesReading(w')
  {
    hide Inv, AllAttended, PassStep, MustRetry, Emitted;
    AttendedAtStart(setup, w, w', n);
  }

  lemma BindingWriteAttends(setup: Setup, w: World, w': World, n: string)
    requires PassStart(setup, w, w', n) && w.s.phase.Guarded? && w'.s == Next(setup, w.s)
    requires n in w'.s.c.namespaces
    ensures Attended(w', n) && PhaseMatchesReading(w')
  {
    hide Inv, AllAttended, PassStep, MustRetry, Emitted;
    AttendedAtStart(setup, w, w', n);
    var c, c' := w.s.c, w'.s.c;
    if Matches(c, n) {
      assert BindingFor(c, w.s.phase.ns) == c.bindings[n];
      assert c'.bindings == c.bindings;
    } else {
      BindingChangeSeen(c, c', n);
      Waits(w', n);
    }
  }

  lemma DropAttends(setup: Setup, w: World, w': World, n: string)
    requires PassStart(setup, w, w', n) && w.s.phase.Dropping? && w'.s == Next(setup, w.s)
    requires n in w'.s.c.namespaces
    ensures Attended(w', n) && PhaseMatchesReading(w')
  {
    hide Inv, AllAttended, PassStep, MustRetry, Emitted;
    AttendedAtStart(setup, w, w', n);
    if n in w.s.c.bindings {
      BindingChangeSeen(w.s.c, w'.s.c, n);
      Waits(w', n);
    }
  }

  lemma ReleaseAttends(setup: Setup, w: World, w': World, n: string)
    requires PassStart(setup, w, w', n) && w.s.phase.Releasing? && w'.s == Next(setup, w.s)
    requires n in w'.s.c.namespaces
    ensures Attended(w', n) && PhaseMatchesReading(w')
  {
    hide Inv, AllAttended, PassStep, MustRetry, Emitted;
    AttendedAtStart(setup, w, w', n);
    assert Waiting(w, n);
  }

  lemma RecordAttends(setup: Setup, w: World, w': World, n: string)
    requires PassStart(setup, w, w', n) && w.s.phase.Recording? && w'.s == Next(setup, w.s)
    requires n in w'.s.c.namespaces
    ensures Attended(w', n) && PhaseMatchesReading(w')
  {
    hide ClusterInv, Covered, AllAttended, PassStep, Emitted, GoodInventory;
    AttendedAtStart(setup, w, w', n);
  }

  /** Between the binding's write and the record of the outcome only objects and the pass itself change. */
  lemma LoopFrame(setup: Setup, s: Config, s': Config)
    requires PassStep(setup, s, s') && (s.phase.Bound? || s.phase.Applying? || s.phase.Deleting?)
    requires !s'.phase.Idle?
    ensures s'.c.namespaces == s.c.namespaces && s'.c.bindings == s.c.bindings && s'.c.classes == s.c.classes
    ensures s'.phase.ns == s.phase.ns && !s'.phase.NamespaceRead? && !s'.phase.ClassRead?
    ensures !s'.phase.Guarded? && !s'.phase.Bound? && !s'.phase.Releasing?
  {
    hide AfterNamespaceRead, AfterClassRead, AfterGuarded, AfterRecording, AfterDropping, AfterReleasing;
    hide PreparedAll, Merge, Sorted, ObjectsOf, Key, Keys, U.IsManagedBy, Recordable, ObjectOf, ClusterScoped;
  }

  lemma LoopKeepsClass(setup: Setup, s: Config, s': Config, found: Option<NamespaceClass>)
    requires PassStep(setup, s, s') && (s.phase.Bound? || s.phase.Applying? || s.phase.Deleting?)
    requires WorksWith(s.phase, found)
    ensures WorksWith(s'.phase, found)
  {
    hide AfterNamespaceRead, AfterClassRead, AfterGuarded, AfterRecording, AfterDropping, AfterReleasing;
    hide PreparedAll, Merge, Sorted, ObjectsOf, Key, Keys, U.IsManagedBy, Recordable;
  }

  lemma LoopAttends(setup: Setup, w: World, w': World, n: string)
    requires PassStart(setup, w, w', n) && (w.s.phase.Bound? || w.s.phase.Applying? || w.s.phase.Deleting?)
    requires !w'.s.phase.Idle? && n in w'.s.c.namespaces
    ensures Attended(w', n) && PhaseMatchesReading(w')
  {
    hide AllAttended, MustRetry, Emitted, Inv, PassStep, WorksWith, Labelled;
    AttendedAtStart(setup, w, w', n);
    LoopFrame(setup, w.s, w'.s);
    LoopKeepsClass(setup, w.s, w'.s, w.readings[n].found);
  }

  lemma NonIdleFault(setup: Setup, s: Config, s': Config)
    requires PassStep(setup, s, s') && s' != Next(setup, s) && !s'.phase.Idle?
    ensures s.phase.Bound? || s.phase.Applying? || s.phase.Deleting?
  {
    hide PreparedAll, Merge, Sorted, ObjectsOf, Key, Keys, U.IsManagedBy, Recordable, BindingFor, Next;
  }

  lemma LoopsGoOn(setup: Setup, s: Config)
    requires InBounds(s.phase) && (s.phase.Bound? || s.phase.Applying? || s.phase.Deleting?)
    ensures !Next(setup, s).phase.Idle?
  {
    hide AfterNamespaceRead, AfterClassRead, AfterGuarded, AfterRecording, AfterDropping, AfterReleasing;
    hide PreparedAll, Merge, Sorted, ObjectsOf, Key, Keys, U.IsManagedBy, Recordable, BindingFor;
  }

  lemma PassAttends(setup: Setup, w: World, w': World, n: string)
    requires PassStart(setup, w, w', n) && n in w'.s.c.namespaces
    ensures Attended(w', n) && PhaseMatchesReading(w')
  {
    hide Attended, PhaseMatchesReading, AllAttended, Emitted, Next, Inv, PassStep;
    AttendedAtStart(setup, w, w', n);
    PassStepActive(setup, w.s, w'.s);
    if w'.s == Next(setup, w.s) {
      match w.s.phase {
        case NamespaceRead(_) => ClassReadAttends(setup, w, w', n);
        case ClassRead(_, _) => GuardAttends(setup, w, w', n);
        case Guarded(_, _) => BindingWriteAttends(setup, w, w', n);
        case Bound(_, _, _) => LoopsGoOn(setup, w.s); LoopAttends(setup, w, w', n);
        case Applying(_, _, _, _, _, _) => LoopsGoOn(setup, w.s); LoopAttends(setup, w, w', n);
        case Deleting(_, _, _, _, _, _, _) => LoopsGoOn(setup, w.s); LoopAttends(setup, w, w', n);
        case Recording(_, _, _, _) => RecordAttends(setup, w, w', n);
        case Dropping(_) => DropAttends(setup, w, w', n);
        case Releasing(_) => ReleaseAttends(setup, w, w', n);
      }
    } else if w'.s.phase.Idle? {
      Waits(w', n);
      IdleMatches(w');
    } else {
      NonIdleFault(setup, w.s, w'.s);
      LoopAttends(setup, w, w', n);
    }
  }

  lemma IdleMatches(w: World)
    requires w.s.phase.Idle?
    ensures PhaseMatchesReading(w)
  {
  }

  // ----- Every step keeps attention -----

  /** A pass removes no namespace, and a namespace it leaves labelled was labelled when it read it. */
  lemma PassKeepsLabels(setup: Setup, s: Config, s': Config)
    requires Inv(setup, s) && PassStep(setup, s, s')
    ensures s'.c.namespaces.Keys == s.c.namespaces.Keys && !s.phase.Idle?
    ensures var n := s.phase.ns.meta.name;
            n in s.c.namespaces && (Labelled(s'.c.namespaces[n]) <==> Labelled(s.phase.ns))
    ensures !s'.phase.Idle? ==> (Labelled(s'.phase.ns) <==> Labelled(s.phase.ns))
  {
    hide ClusterInv, Covered, PassStep;
    hide ApplyingOk, DeletingOk, RecordingOk, BindingUpToDate, Clean, FoundOk;
    PassStepActive(setup, s, s');
    PassWritesFinalizers(setup, s, s');
  }

  lemma PassKeepsWorldInv(setup: Setup, w: World, w': World)
    requires WorldInv(setup, w) && PassMoves(setup, w, w')
    ensures WorldInv(setup, w')
  {
    hide Inv, Attended, PhaseMatchesReading, PassStep, Labelled, MustRetry, Emitted;
    PassStepActive(setup, w.s, w'.s);
    PassKeepsInv(setup, w.s, w'.s);
    PassKeepsLabels(setup, w.s, w'.s);
    forall m | m in w'.s.c.namespaces && m != "" && Labelled(w'.s.c.namespaces[m])
      ensures Attended(w', m)
    {
      if m == w.s.phase.ns.meta.name {
        PassAttends(setup, w, w', m);
      } else {
        PassKeepsOthersAttended(setup, w, w', m);
      }
    }
    assert PhaseMatchesReading(w') by {
      if w.s.phase.ns.meta.name != "" && Labelled(w.s.phase.ns) {
        PassAttends(setup, w, w', w.s.phase.ns.meta.name);
      } else {
        PassKeepsNamespace(setup, w.s, w'.s);
        NothingToMatch(w');
      }
    }
  }

  lemma NothingToMatch(w: World)
    requires w.s.phase.Idle? || !Labelled(w.s.phase.ns) || w.s.phase.ns.meta.name == ""
    ensures PhaseMatchesReading(w)
  {
  }

  /** What the environment changes is announced: a namespace it touches, or a class a namespace was last
      reconciled against. */
  lemma EnvAttends(setup: Setup, w: World, w': World, n: string)
    requires WorldInv(setup, w) && EnvMoves(w, w')
    requires n in w'.s.c.namespaces && n != "" && Labelled(w'.s.c.namespaces[n])
    ensures Attended(w', n)
  {
    hide Inv, PhaseMatchesReading, EnvStep, Emitted, StatusCurrent, Labelled;
    var c, c' := w.s.c, w'.s.c;
    EnvChanges(w.s, w'.s);
    if Find(c.namespaces, n) != Find(c'.namespaces, n) {
      NamespaceChangeSeen(c, c', n);
    } else {
      assert Attended(w, n);
      var k := c.namespaces[n].ClassName();
      if Find(c.classes, k) != Find(c'.classes, k) {
        ClassChangeSeen(c, c', k);
      }
    }
  }

  lemma EnvChanges(s: Config, s': Config)
    requires EnvStep(s, s')
    ensures s'.phase == s.phase && s'.c.bindings == s.c.bindings
    ensures forall k :: Find(s.c.classes, k) == Find(s'.c.classes, k)
                        || ClassEventPasses(Find(s.c.classes, k), Find(s'.c.classes, k))
  {
    var a :| Allowed(s, a) && s' == s.(c := Do(s.c, a));
  }

  lemma EnvKeepsWorldInv(setup: Setup, w: World, w': World)
    requires WorldInv(setup, w) && EnvMoves(w, w')
    ensures WorldInv(setup, w')
  {
    hide Inv, Attended, EnvStep, Emitted, Labelled, WorksWith;
    EnvKeepsInv(setup, w.s, w'.s);
    EnvChanges(w.s, w'.s);
    forall n | n in w'.s.c.namespaces && n != "" && Labelled(w'.s.c.namespaces[n])
      ensures Attended(w', n)
    {
      EnvAttends(setup, w, w', n);
    }
  }

  /** A delivered event leaves its namespaces queued. For a class event this is where the fan-out must find
      every namespace that relies on it: its binding names the class and the namespace. */
  lemma DeliveryKeepsWorldInv(setup: Setup, w: World, w': World)
    requires WorldInv(setup, w) && Delivers(w, w')
    ensures WorldInv(setup, w')
  {
    hide Covered, PhaseOk, StatusCurrent, WorksWith, UidsOk, StoreOk, OwnedScoped, InventoriesGood;
    hide GuardedByFinalizer, NoOrphans;
    var e :| e in w.events && w' == w.(events := w.events - {e}, queue := w.queue + Requests(w.s.c, e));
    forall n | n in w.s.c.namespaces && n != "" && Labelled(w.s.c.namespaces[n])
      ensures Attended(w', n)
    {
      if e.ClassEvent? && Matches(w.s.c, n) && w.s.c.bindings[n].className == e.className {
        assert e.className in IndexKeys(w.s.c.bindings[n]);
        assert n in BoundTo(w.s.c.bindings, e.className);
        assert RequestFor(n, w.s.c.bindings[n]) == n;
        assert n in FanOut(w.s.c.bindings, e.className);
      }
    }
  }

  lemma DequeueKeepsWorldInv(setup: Setup, w: World, w': World)
    requires WorldInv(setup, w) && Dequeues(w, w')
    ensures WorldInv(setup, w')
  {
    hide Inv, StatusCurrent, Labelled, WorksWith;
    var n :| n in w.queue && w' == w.(queue := w.queue - {n}, s := Begin(w.s, n));
    BeginKeepsInv(setup, w.s, n);
    forall m | m in w.s.c.namespaces && m != "" && Labelled(w.s.c.namespaces[m])
      ensures Attended(w', m)
    {
      KeyedByName(setup, w.s, m);
      KeyedByName(setup, w.s, n);
    }
  }

  lemma KeyedByName(setup: Setup, s: Config, n: string)
    requires Inv(setup, s)
    ensures n in s.c.namespaces ==> s.c.namespaces[n].meta.name == n
  {
    hide Covered, PhaseOk;
  }

  lemma RestartKeepsWorldInv(setup: Setup, w: World, w': World)
    requires WorldInv(setup, w) && Restarts(w, w')
    ensures WorldInv(setup, w')
  {
    hide Inv, Labelled, WorksWith, UpToDate, AboutToBind, Claimed, Recorded;
    if !w.s.phase.Idle? {
      AbortStep(setup, w.s);
    }
  }

  lemma RequeueKeepsWorldInv(setup: Setup, w: World, w': World)
    requires WorldInv(setup, w) && Requeues(w, w')
    ensures WorldInv(setup, w')
  {
    hide Inv, Labelled, WorksWith, UpToDate, AboutToBind;
    forall n | n in w.s.c.namespaces && n != "" && Labelled(w.s.c.namespaces[n])
      ensures Attended(w', n)
    {
      AttendedFrame(w, w', n);
    }
  }

  lemma WorldStepKeepsInv(setup: Setup, w: World, w': World)
    requires WorldInv(setup, w) && WorldStep(setup, w, w')
    ensures WorldInv(setup, w')
  {
    hide WorldInv, PassMoves, EnvMoves, Delivers, Dequeues, Requeues, Restarts;
    if PassMoves(setup, w, w') {
      PassKeepsWorldInv(setup, w, w');
    } else if EnvMoves(w, w') {
      EnvKeepsWorldInv(setup, w, w');
    } else if Delivers(w, w') {
      DeliveryKeepsWorldInv(setup, w, w');
    } else if Dequeues(w, w') {
      DequeueKeepsWorldInv(setup, w, w');
    } else if Requeues(w, w') {
      RequeueKeepsWorldInv(setup, w, w');
    } else {
      RestartKeepsWorldInv(setup, w, w');
    }
  }

  lemma {:induction false} WorldRunInv(setup: Setup, run: seq<World>)
    requires IsWorldRun(setup, run)
    ensures WorldInv(setup, run[|run| - 1])
    decreases |run|
  {
    hide WorldInv, WorldStep, WorldInit;
    var n := |run| - 1;
    if n == 0 {
      WorldInitInv(setup, run[0]);
    } else {
      WorldRunInv(setup, run[..n]);
      assert WorldStep(setup, run[n - 1], run[n - 1 + 1]);
      WorldStepKeepsInv(setup, run[n - 1], run[n]);
    }
  }

  // ----- No class update is lost -----

  /** In every state of every run, with class edits at any point of a pass and any call failing: a labelled
      namespace is about to be reconciled, or a pass is about to write its binding and so raise an event, or
      it was last reconciled against the current class, or the class's own event is on its way and will
      find it. No periodic requeue is needed. */
  lemma NoLostClassUpdate(setup: Setup, run: seq<World>, n: string)
    requires IsWorldRun(setup, run)
    requires var c := run[|run| - 1].s.c; n in c.namespaces && n != "" && Labelled(c.namespaces[n])
    ensures Attended(run[|run| - 1], n)
  {
    hide Inv, Attended, PhaseMatchesReading, WorldStep;
    WorldRunInv(setup, run);
  }

  /** When nothing is queued, under way or running, the class of every labelled namespace exists, its
      current version is the one last reconciled, and the binding's status says so for the binding's
      current spec. In particular a namespace whose class is missing never comes to rest. */
  lemma AtRestMeansCurrent(setup: Setup, run: seq<World>, n: string)
    requires IsWorldRun(setup, run)
    requires var w := run[|run| - 1];
             && w.queue == {} && w.events == {} && w.s.phase.Idle?
             && n in w.s.c.namespaces && n != "" && Labelled(w.s.c.namespaces[n])
    ensures var w := run[|run| - 1]; var k := w.s.c.namespaces[n].ClassName();
            && k in w.s.c.classes && n in w.s.c.bindings
            && n in w.readings && w.readings[n] == Reading(k, Some(w.s.c.classes[k]))
            && var b := w.s.c.bindings[n];
               && b.className == k && b.status.observedClassGeneration == w.s.c.classes[k].generation
               && b.status.condition.Some? && b.status.condition.value.observedGeneration == b.generation
  {
    hide Inv, PhaseMatchesReading, WorldStep;
    WorldRunInv(setup, run);
  }

  /** A binding asks for the namespace of its own name, whose pass reads this very binding. */
  lemma BindingAsksForItself(setup: Setup, s: Config, n: string)
    requires Inv(setup, s) && n in s.c.bindings
    ensures RequestFor(n, s.c.bindings[n]) == n
    ensures n in s.c.namespaces ==>
              && s.c.namespaces[n].meta.name == n
              && BindingFor(s.c, s.c.namespaces[n]).status == s.c.bindings[n].status
  {
    hide Covered, PhaseOk;
  }

  /** Whatever the bindings are, a class event asks for the namespace each binding of that class names, or for the
      binding's own name where it names none. */
  lemma FanOutSpelled(bindings: map<string, Binding>, k: string, n: string)
    ensures n in FanOut(bindings, k)
            <==> n != "" && k != ""
                 && exists m :: m in bindings && bindings[m].className == k
                                && (bindings[m].namespaceName == n || (bindings[m].namespaceName == "" && m == n))
  {
    forall m | m in bindings
      ensures m in BoundTo(bindings, k) <==> bindings[m].className == k && k != ""
      ensures RequestFor(m, bindings[m]) == n <==>
              if bindings[m].namespaceName == "" then m == n else bindings[m].namespaceName == n
    {
    }
  }

  /** A class event's fan-out asks for exactly the namespaces bound to the class. */
  lemma FanOutExactly(setup: Setup, s: Config, k: string, n: string)
    requires Inv(setup, s) && n != "" && k != ""
    ensures n in FanOut(s.c.bindings, k) <==> n in s.c.bindings && s.c.bindings[n].className == k
  {
    hide Covered, PhaseOk;
    if n in s.c.bindings && s.c.bindings[n].className == k {
      assert k in IndexKeys(s.c.bindings[n]);
      assert n in BoundTo(s.c.bindings, k);
      assert RequestFor(n, s.c.bindings[n]) == n;
    }
  }
}
