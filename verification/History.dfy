/** What inventories and statuses owe to the classes that passes have read. */
module History {
  import opened Wrappers
  import opened ResourceRefs
  import opened Cluster
  import opened Prepare
  import opened Machine
  import opened Invariants
  import opened Steps
  import opened Safety
  import U = Unstructured

  // ----- Reads -----

  /** A pass for a namespace with this metadata has just read this version of its class. */
  predicate ReadsClass(s: Config, meta: Meta, cls: NamespaceClass) {
    s.phase.ClassRead? && s.phase.ns.meta == meta && s.phase.found == Some(cls)
  }

  ghost predicate WasRead(run: seq<Config>, meta: Meta, cls: NamespaceClass) {
    exists j :: 0 <= j < |run| && ReadsClass(run[j], meta, cls)
  }

  /** No pass ends between two points of a run. */
  ghost predicate OnePass(run: seq<Config>, j: nat, i: nat) {
    j <= i < |run| && forall k | j <= k <= i :: !run[k].phase.Idle?
  }

  /** The pass at point i has read this version of the class for this metadata. */
  ghost predicate ReadInPass(run: seq<Config>, i: nat, meta: Meta, cls: NamespaceClass) {
    exists j: nat :: OnePass(run, j, i) && ReadsClass(run[j], meta, cls)
  }

  /** The object is desired by a class version that a pass read, for metadata with that UID. */
  ghost predicate Desired(setup: Setup, run: seq<Config>, uid: string, id: ObjectId, meta: Meta, cls: NamespaceClass,
                          resources: seq<Prepared>) {
    && WasRead(run, meta, cls) && meta.uid == uid
    && Desires(setup, meta, cls, resources)
    && id in ObjectsOf(Refs(resources))
  }

  ghost predicate DesiredByRead(setup: Setup, run: seq<Config>, uid: string, id: ObjectId) {
    exists meta, cls, resources :: Desired(setup, run, uid, id, meta, cls, resources)
  }

  // ----- Reports -----

  /** The binding says exactly what this version of the class desires for this metadata. */
  ghost predicate Reports(setup: Setup, b: Binding, meta: Meta, cls: NamespaceClass, resources: seq<Prepared>) {
    && cls.name == b.className && cls.generation == b.status.observedClassGeneration
    && meta.name == b.namespaceName && meta.uid == b.status.observedUid
    && Desires(setup, meta, cls, resources)
    && b.status.inventory == Sorted(Refs(resources))
  }

  /** The status was written at point i, by a pass that had read that class for that metadata. */
  ghost predicate WrittenAt(setup: Setup, run: seq<Config>, i: nat, b: Binding, meta: Meta, cls: NamespaceClass,
                            resources: seq<Prepared>) {
    && i + 1 < |run| && run[i].phase.Recording? && run[i + 1] == AfterRecording(run[i])
    && run[i].phase.binding == b
    && ReadInPass(run, i, meta, cls)
    && Reports(setup, b, meta, cls, resources)
  }

  ghost predicate Written(setup: Setup, run: seq<Config>, b: Binding) {
    exists i: nat, meta, cls, resources :: WrittenAt(setup, run, i, b, meta, cls, resources)
  }

  /** A status never runs ahead of the spec, and one that reports success was written by such a pass. */
  ghost predicate TrueBinding(setup: Setup, run: seq<Config>, b: Binding) {
    && (b.status.condition.Some? ==> b.status.condition.value.observedGeneration <= b.generation)
    && (ReportsReady(b) ==> Written(setup, run, b))
  }

  // ----- The invariant of runs -----

  ghost predicate PhaseRead(setup: Setup, run: seq<Config>)
    requires run != []
  {
    var i := |run| - 1;
    var phase := run[i].phase;
    && (HeldClass(phase).Some? ==> ReadInPass(run, i, phase.ns.meta, HeldClass(phase).value))
    && (phase.Recording? ==>
          && phase.binding.status.condition.Some?
          && phase.binding.status.condition.value.observedGeneration <= phase.binding.generation
          && (forall id | id in phase.claimed :: DesiredByRead(setup, run, phase.ns.meta.uid, id))
          && (ReportsReady(phase.binding) ==>
                exists cls, resources :: ReadInPass(run, i, phase.ns.meta, cls)
                                         && Reports(setup, phase.binding, phase.ns.meta, cls, resources)))
  }

  ghost predicate HistoryInv(setup: Setup, run: seq<Config>)
    requires run != []
  {
    var c := run[|run| - 1].c;
    && (forall n | n in c.bindings :: TrueBinding(setup, run, c.bindings[n]))
    && (forall id | id in c.store.pending && id in c.store.applied ::
          DesiredByRead(setup, run, c.store.applied[id], id))
    && PhaseRead(setup, run)
  }

  // ----- Runs grow -----

  lemma ReadGrows(run: seq<Config>, s: Config, i: nat, meta: Meta, cls: NamespaceClass)
    requires ReadInPass(run, i, meta, cls)
    ensures ReadInPass(run + [s], i, meta, cls) && WasRead(run, meta, cls)
    ensures i == |run| - 1 && !s.phase.Idle? ==> ReadInPass(run + [s], i + 1, meta, cls)
  {
    var j: nat :| OnePass(run, j, i) && ReadsClass(run[j], meta, cls);
    assert OnePass(run + [s], j, i) && ReadsClass((run + [s])[j], meta, cls);
    if i == |run| - 1 && !s.phase.Idle? {
      assert OnePass(run + [s], j, i + 1);
    }
  }

  lemma DesiredGrows(setup: Setup, run: seq<Config>, s: Config, uid: string, id: ObjectId)
    requires DesiredByRead(setup, run, uid, id)
    ensures DesiredByRead(setup, run + [s], uid, id)
  {
    hide Desires, ObjectsOf;
    var meta, cls, resources :| Desired(setup, run, uid, id, meta, cls, resources);
    var j :| 0 <= j < |run| && ReadsClass(run[j], meta, cls);
    assert ReadsClass((run + [s])[j], meta, cls);
    assert Desired(setup, run + [s], uid, id, meta, cls, resources);
  }

  lemma TrueGrows(setup: Setup, run: seq<Config>, s: Config, b: Binding)
    requires TrueBinding(setup, run, b)
    ensures TrueBinding(setup, run + [s], b)
  {
    hide Reports, AfterRecording, ReadInPass;
    if ReportsReady(b) {
      var i: nat, meta, cls, resources :| WrittenAt(setup, run, i, b, meta, cls, resources);
      ReadGrows(run, s, i, meta, cls);
      assert WrittenAt(setup, run + [s], i, b, meta, cls, resources);
    }
  }

  // ----- Steps of a pass -----

  /** A class held was held before the step, unless the step has just read it. */
  lemma HeldBefore(setup: Setup, s: Config, s': Config)
    requires PassStep(setup, s, s') && HeldClass(s'.phase).Some?
    ensures HeldClass(s.phase) == HeldClass(s'.phase) || ReadsClass(s', s'.phase.ns.meta, HeldClass(s'.phase).value)
  {
    hide PreparedAll, Merge, Sorted, ObjectsOf, ClusterScoped, Key, Keys, U.IsManagedBy, Recordable, BindingFor;
  }

  /** The success a prune loop is about to record reports the class it holds. */
  lemma SuccessReports(setup: Setup, s: Config)
    requires Inv(setup, s) && s.phase.Deleting? && s.phase.why.Stale?
    ensures Reports(setup, Succeeded(s.phase.binding, s.phase.ns.meta.uid, s.phase.why.cls, s.phase.keep),
                    s.phase.ns.meta, s.phase.why.cls, s.phase.why.resources)
  {
    hide Covered, Desires, Sorted, WellPrepared, Recordable, GoodInventory;
  }

  lemma RecordingIsRead(setup: Setup, run: seq<Config>, s': Config)
    requires run != [] && Inv(setup, run[|run| - 1]) && HistoryInv(setup, run)
    requires PassStep(setup, run[|run| - 1], s') && s'.phase.Recording?
    ensures PhaseRead(setup, run + [s'])
  {
    hide Inv, PassStep, Desires, Sorted, ObjectsOf, TrueBinding, Reports, ReadInPass, WasRead, ReportsReady, Claimed;
    var i, s, run' := |run| - 1, run[|run| - 1], run + [s'];
    StartsRecording(setup, s, s');
    if s'.phase.claimed != {} {
      var resources := ClaimsAreDesired(setup, s);
      ReadGrows(run, s', i, s.phase.ns.meta, HeldClass(s.phase).value);
      ReadIsRead(run', i + 1, s.phase.ns.meta, HeldClass(s.phase).value);
      forall id | id in s'.phase.claimed
        ensures DesiredByRead(setup, run', s.phase.ns.meta.uid, id)
      {
        assert Desired(setup, run', s.phase.ns.meta.uid, id, s.phase.ns.meta, HeldClass(s.phase).value, resources);
      }
    }
    if ReportsReady(s'.phase.binding) {
      SuccessReports(setup, s);
      ReadGrows(run, s', i, s.phase.ns.meta, HeldClass(s.phase).value);
    }
  }

  lemma ReadIsRead(run: seq<Config>, i: nat, meta: Meta, cls: NamespaceClass)
    requires ReadInPass(run, i, meta, cls)
    ensures WasRead(run, meta, cls)
  {
  }

  lemma PhaseIsRead(setup: Setup, run: seq<Config>, s': Config)
    requires run != [] && Inv(setup, run[|run| - 1]) && HistoryInv(setup, run)
    requires PassStep(setup, run[|run| - 1], s')
    ensures PhaseRead(setup, run + [s'])
  {
    hide Inv, PassStep, Desires, TrueBinding, Reports, ReadInPass, WasRead, DesiredByRead, ReadsClass;
    var i, s := |run| - 1, run[|run| - 1];
    if s'.phase.Recording? {
      RecordingIsRead(setup, run, s');
    } else if HeldClass(s'.phase).Some? {
      var cls := HeldClass(s'.phase).value;
      HeldBefore(setup, s, s');
      PassKeepsNamespace(setup, s, s');
      if HeldClass(s.phase) == Some(cls) {
        ReadGrows(run, s', i, s.phase.ns.meta, cls);
      } else {
        JustRead(run, s', cls);
      }
    }
  }

  lemma JustRead(run: seq<Config>, s: Config, cls: NamespaceClass)
    requires !s.phase.Idle? && ReadsClass(s, s.phase.ns.meta, cls)
    ensures ReadInPass(run + [s], |run|, s.phase.ns.meta, cls)
  {
    assert OnePass(run + [s], |run|, |run|) && ReadsClass((run + [s])[|run|], s.phase.ns.meta, cls);
  }

  /** Bindings are written when they are brought up to date, when an outcome is recorded, and when they go. */
  lemma BindingsChange(setup: Setup, s: Config, s': Config, n: string)
    requires PassStep(setup, s, s') && n in s'.c.bindings
    ensures || (n in s.c.bindings && s'.c.bindings[n] == s.c.bindings[n])
            || (s.phase.Guarded? && s'.c.bindings[n] == BindingFor(s.c, s.phase.ns) && n == s.phase.ns.meta.name)
            || (s.phase.Recording? && s' == AfterRecording(s) && s'.c.bindings[n] == s.phase.binding)
  {
    hide PreparedAll, Merge, Sorted, ObjectsOf, ClusterScoped, Key, Keys, U.IsManagedBy, Recordable, BindingFor;
  }

  /** Bringing a binding up to date never makes a status report success. */
  lemma UpToDateIsTrue(setup: Setup, run: seq<Config>, c: Cluster, ns: Namespace)
    requires forall n | n in c.bindings :: TrueBinding(setup, run, c.bindings[n])
    ensures TrueBinding(setup, run, BindingFor(c, ns))
  {
    hide Written;
  }

  lemma BindingsAreTrue(setup: Setup, run: seq<Config>, s': Config, n: string)
    requires run != [] && HistoryInv(setup, run) && PassStep(setup, run[|run| - 1], s') && n in s'.c.bindings
    ensures TrueBinding(setup, run + [s'], s'.c.bindings[n])
  {
    hide PassStep, TrueBinding, ReadInPass, DesiredByRead, Reports, BindingFor, HeldClass;
    var i, s := |run| - 1, run[|run| - 1];
    BindingsChange(setup, s, s', n);
    if n in s.c.bindings && s'.c.bindings[n] == s.c.bindings[n] {
      TrueGrows(setup, run, s', s.c.bindings[n]);
    } else if s.phase.Guarded? {
      UpToDateIsTrue(setup, run, s.c, s.phase.ns);
      TrueGrows(setup, run, s', BindingFor(s.c, s.phase.ns));
    } else {
      RecordIsTrue(setup, run, s');
    }
  }

  lemma RecordIsTrue(setup: Setup, run: seq<Config>, s': Config)
    requires run != [] && PhaseRead(setup, run)
    requires run[|run| - 1].phase.Recording? && s' == AfterRecording(run[|run| - 1])
    ensures TrueBinding(setup, run + [s'], run[|run| - 1].phase.binding)
  {
    hide DesiredByRead, Reports, ReadInPass, AfterRecording;
    var i, phase := |run| - 1, run[|run| - 1].phase;
    if ReportsReady(phase.binding) {
      var cls, resources :| ReadInPass(run, i, phase.ns.meta, cls)
                            && Reports(setup, phase.binding, phase.ns.meta, cls, resources);
      ReadGrows(run, s', i, phase.ns.meta, cls);
      assert WrittenAt(setup, run + [s'], i, phase.binding, phase.ns.meta, cls, resources);
    }
  }

  // ----- What is lost -----

  /** The steps of a pass lose only what the pass claims, and change only owners of what they apply. */
  lemma LossesAreClaims(setup: Setup, s: Config, s': Config, id: ObjectId)
    requires PassStep(setup, s, s') && id in s'.c.store.pending && id in s'.c.store.applied
    ensures id in s.c.store.applied && s'.c.store.applied[id] == s.c.store.applied[id]
    ensures id in s.c.store.pending || id in Claimed(s.phase)
  {
    hide Next, PreparedAll, Merge, Sorted, ObjectsOf, Key, Keys, Recordable, Claimed;
    if s' == Next(setup, s) {
      NextLosesNothing(setup, s, id);
    }
  }

  lemma ClaimIsDesired(setup: Setup, run: seq<Config>, id: ObjectId)
    requires run != [] && Inv(setup, run[|run| - 1]) && HistoryInv(setup, run)
    requires var s := run[|run| - 1]; !s.phase.Idle? && id in Claimed(s.phase)
    ensures DesiredByRead(setup, run, run[|run| - 1].phase.ns.meta.uid, id)
  {
    hide Inv, Desires, ObjectsOf, TrueBinding, Reports, ReadInPass, WasRead, ReportsReady;
    var s := run[|run| - 1];
    if !s.phase.Recording? {
      var resources := ClaimsAreDesired(setup, s);
      ReadIsRead(run, |run| - 1, s.phase.ns.meta, HeldClass(s.phase).value);
      assert Desired(setup, run, s.phase.ns.meta.uid, id, s.phase.ns.meta, HeldClass(s.phase).value, resources);
    }
  }

  lemma LossesAreDesired(setup: Setup, run: seq<Config>, s': Config, id: ObjectId)
    requires run != [] && Inv(setup, run[|run| - 1]) && HistoryInv(setup, run)
    requires PassStep(setup, run[|run| - 1], s') && id in s'.c.store.pending && id in s'.c.store.applied
    ensures DesiredByRead(setup, run + [s'], s'.c.store.applied[id], id)
  {
    hide Inv, PassStep, PhaseRead, TrueBinding, DesiredByRead, Claimed;
    var s := run[|run| - 1];
    LossesAreClaims(setup, s, s', id);
    if id !in s.c.store.pending {
      PassStepActive(setup, s, s');
      ClaimedOwned(setup, s);
      ClaimIsDesired(setup, run, id);
    }
    DesiredGrows(setup, run, s', s.c.store.applied[id], id);
  }

  // ----- Every step -----

  lemma PassKeepsHistory(setup: Setup, run: seq<Config>, s': Config)
    requires run != [] && Inv(setup, run[|run| - 1]) && HistoryInv(setup, run)
    requires PassStep(setup, run[|run| - 1], s')
    ensures HistoryInv(setup, run + [s'])
  {
    hide Inv, PassStep, PhaseRead, TrueBinding, DesiredByRead;
    PhaseIsRead(setup, run, s');
    forall n | n in s'.c.bindings
      ensures TrueBinding(setup, run + [s'], s'.c.bindings[n])
    {
      BindingsAreTrue(setup, run, s', n);
    }
    forall id | id in s'.c.store.pending && id in s'.c.store.applied
      ensures DesiredByRead(setup, run + [s'], s'.c.store.applied[id], id)
    {
      LossesAreDesired(setup, run, s', id);
    }
  }

  /** What the rest of the cluster does leaves bindings, owners and the pass alone. */
  lemma OtherSteps(setup: Setup, s: Config, s': Config)
    requires Step(setup, s, s') && !PassStep(setup, s, s')
    ensures s'.c.bindings == s.c.bindings && s'.c.store.pending <= s.c.store.pending
    ensures forall id | id in s'.c.store.applied ::
              id in s.c.store.applied && s'.c.store.applied[id] == s.c.store.applied[id]
    ensures s'.phase == s.phase || (s.phase.Idle? && (s'.phase.Idle? || s'.phase.NamespaceRead?))
  {
    hide PassStep;
    if EnvStep(s, s') {
      var a :| Allowed(s, a) && s' == s.(c := Do(s.c, a));
    }
  }

  lemma OthersKeepHistory(setup: Setup, run: seq<Config>, s': Config)
    requires run != [] && HistoryInv(setup, run)
    requires Step(setup, run[|run| - 1], s') && !PassStep(setup, run[|run| - 1], s')
    ensures HistoryInv(setup, run + [s'])
  {
    hide Step, PassStep, PhaseRead, TrueBinding, DesiredByRead;
    var s := run[|run| - 1];
    OtherSteps(setup, s, s');
    forall n | n in s'.c.bindings
      ensures TrueBinding(setup, run + [s'], s'.c.bindings[n])
    {
      TrueGrows(setup, run, s', s.c.bindings[n]);
    }
    forall id | id in s'.c.store.pending && id in s'.c.store.applied
      ensures DesiredByRead(setup, run + [s'], s'.c.store.applied[id], id)
    {
      DesiredGrows(setup, run, s', s.c.store.applied[id], id);
    }
    SamePhaseRead(setup, run, s');
  }

  lemma SamePhaseRead(setup: Setup, run: seq<Config>, s': Config)
    requires run != [] && PhaseRead(setup, run)
    requires var s := run[|run| - 1];
             s'.phase == s.phase || (s.phase.Idle? && (s'.phase.Idle? || s'.phase.NamespaceRead?))
    ensures PhaseRead(setup, run + [s'])
  {
    hide ReadInPass, Reports, DesiredByRead, ReportsReady;
    var i, phase := |run| - 1, s'.phase;
    if HeldClass(phase).Some? {
      ReadGrows(run, s', i, phase.ns.meta, HeldClass(phase).value);
    }
    if phase.Recording? {
      forall id | id in phase.claimed
        ensures DesiredByRead(setup, run + [s'], phase.ns.meta.uid, id)
      {
        DesiredGrows(setup, run, s', phase.ns.meta.uid, id);
      }
      if ReportsReady(phase.binding) {
        var cls, resources :| ReadInPass(run, i, phase.ns.meta, cls)
                              && Reports(setup, phase.binding, phase.ns.meta, cls, resources);
        ReadGrows(run, s', i, phase.ns.meta, cls);
      }
    }
  }

  lemma {:induction false} RunHistory(setup: Setup, run: seq<Config>)
    requires IsRun(setup, run)
    ensures HistoryInv(setup, run)
    decreases |run|
  {
    hide Step, Inv, HistoryInv, Init;
    var n := |run| - 1;
    if n == 0 {
      HistoryStarts(setup, run);
    } else {
      var shorter := run[..n];
      RunHistory(setup, shorter);
      RunKeepsInv(setup, shorter);
      assert Step(setup, run[n - 1], run[n - 1 + 1]);
      assert shorter + [run[n]] == run;
      if PassStep(setup, run[n - 1], run[n]) {
        PassKeepsHistory(setup, shorter, run[n]);
      } else {
        OthersKeepHistory(setup, shorter, run[n]);
      }
    }
  }

  lemma HistoryStarts(setup: Setup, run: seq<Config>)
    requires |run| == 1 && Init(run[0])
    ensures HistoryInv(setup, run)
  {
  }

  // ----- What it means -----

  /** Under every failure, an object that an inventory misses was lost by a pass that ended before recording
      it, and is in the desired set of a class version that a pass read, for metadata of that namespace. */
  lemma WeakCoverage(setup: Setup, run: seq<Config>, n: string, id: ObjectId)
    requires IsRun(setup, run) && run[|run| - 1].phase.Idle?
    requires var c := run[|run| - 1].c; Owns(c, n, id) && Relevant(c.namespaces[n], id)
    ensures var c := run[|run| - 1].c;
            || id in Recorded(c, n)
            || (id in c.store.pending
                && exists meta, cls, resources ::
                     Desired(setup, run, c.namespaces[n].meta.uid, id, meta, cls, resources))
  {
    hide Desired, Recorded;
    RunKeepsInv(setup, run);
    RunHistory(setup, run);
  }

  /** In every state of every run, inside passes too, a status that reports success for the current spec was
      written by a pass that had read that class in that generation for that namespace, and it lists exactly
      the sorted desired set of what that pass had read. */
  lemma TruthfulStatus(setup: Setup, run: seq<Config>, n: string)
    returns (i: nat, meta: Meta, cls: NamespaceClass, resources: seq<Prepared>)
    requires IsRun(setup, run)
    requires var c := run[|run| - 1].c; n in c.bindings && ReportsReady(c.bindings[n])
    ensures i + 1 < |run| && run[i].phase.Recording? && run[i + 1] == AfterRecording(run[i])
    ensures var b := run[|run| - 1].c.bindings[n];
            && run[i].phase.binding == b
            && ReadInPass(run, i, meta, cls)
            && meta.name == n && meta.uid == b.status.observedUid
            && cls.name == b.className && cls.generation == b.status.observedClassGeneration
            && Desires(setup, meta, cls, resources)
            && b.status.inventory == Sorted(Refs(resources))
  {
    hide Desires, Sorted, PhaseRead, ReadInPass, DesiredByRead, PhaseOk, Covered, AfterRecording;
    RunKeepsInv(setup, run);
    RunHistory(setup, run);
    i, meta, cls, resources :| WrittenAt(setup, run, i, run[|run| - 1].c.bindings[n], meta, cls, resources);
  }
}
