# NamespaceClass controller

A namespace carries a label that names a `NamespaceClass`, a list of object templates. The controller renders the
templates for the namespace, applies the objects, deletes what it applied before and is no longer wanted, and keeps
what it is responsible for in `NamespaceClassBinding.status.inventory`. Nothing is transactional: every call to the API
server may fail, and the process may stop at any call. This project models that controller and proves what its order
of writes guarantees, over every run.

## How it is organised

| file | subject |
|---|---|
| `Reconciler.dfy` | the reconciler as an object: its methods and loops, over calls that may fail, proved to follow the state machine |
| `Machine.dfy` | one pass as a state machine over its calls, and the rest of the cluster around it |
| `Invariants.dfy`, `Steps.dfy` | what every reachable state satisfies, and that every step keeps it |
| `Safety.dfy` | coverage, finalizers, deletion, order of writes, non-interference |
| `History.dfy` | losses and statuses, accounted for by what the passes of a run have read |
| `Convergence.dfy`, `Repetition.dfy`, `Cleanup.dfy` | where a pass without failed calls ends, and exactly when that is where it should end |
| `Limits.dfy`, `Samples.dfy` | where the guarantees end, and concrete clusters that get there |
| `Wakeup.dfy`, `Quiescence.dfy` | watches, event predicates and queue: no class update is lost; which passes are silent, and when the system rests |
| `Prepare.dfy`, `Unstructured.dfy`, `Template.dfy` | from a template to the object that is applied |
| `GvkPolicy.dfy`, `ResourceRefs.dfy` | the policy, the identity keys and the inventory lists |
| `Cluster.dfy`, `Strings.dfy`, `Wrappers.dfy` | the API server's state, strings, options and results |

`Machine.Next` is the next step of a pass when the call succeeds; `Machine.Fault` is every way a call can fail. The
object in `Reconciler.dfy` keeps a ghost trace, and each of its methods may extend the trace only by such a step, by
the prescribed one unless a call made for that very step failed; so its contract ties the real fields (`namespaces`,
`bindings`, `objects`) to the machine at every call. A pass cut off at any call is the machine step `Machine.Abort` from
any state of a trace.

`Store.applied` (who applied an object last) and `Store.pending` (applied objects whose pass ended before recording
them) are history: no step of the controller reads them. "Owned" below means applied for the namespace's UID.

Three results are conditions rather than promises, because the code does not keep the promise outright:

- Coverage. A pass that stops between applying an object and writing the status leaves it out of the inventory
  (`Samples.SampleLoss` is a run). `Limits.AbortLosesExactly` and `Convergence.RestoresCoverageExactly` say when this
  happens and when the next pass repairs it.
- Convergence and idempotence. The key of a reference includes the API version and the cluster's identity of an object
  does not. `Convergence.Converges` and `Repetition.IdempotentExactly` hold if and only if no version is bumped;
  `Limits.VersionBumpDeletes` is the bump, `Samples.SampleVersionBump` a cluster it happens in, and `Repetition.TwoPassesConverge` shows that one more pass repairs it.
- Rest. A namespace whose class is missing has a binding created and deleted in every pass and never comes to rest
  (`Wakeup.AtRestMeansCurrent`).

## Model

| member | source | states |
|---|---|---|
| Reconciler.NamespaceReconciler.Reconcile | internal/controller/namespace_reconciler.go:155-195 | One request, any call failing: the trace left behind is a pass of the state machine that starts in the state found, ends, and deviates from the prescribed steps at most once for each call that failed; the invariant holds afterwards; with no failed call the cluster is exactly the fault-free pass of the old one; an error is returned exactly if the last call failed or the status recorded is that of a blocked cleanup for a deleted namespace or a missing class; the periodic requeue follows a success with a label or with a pending cleanup, and nothing else |
| Reconciler.NamespaceReconciler.ReconcileNamespace | internal/controller/namespace_reconciler.go:164-194 | The three branches of a request: deletion with or without the finalizer, cleanup after the label, and binding reconciliation, each taken step by step to its end |
| Reconciler.NamespaceReconciler.ReconcileBinding | internal/controller/namespace_reconciler.go:248-344 | From the read of the namespace to the end of the pass: class read, finalizer, binding, then missing-class cleanup or apply, prune and record, in this order and no other |
| Reconciler.NamespaceReconciler.ClassCondition | internal/controller/namespace_reconciler.go:725-745 | A class that is there, an absent one, and a failed read lead to three different continuations; a failed read ends the pass |
| Reconciler.NamespaceReconciler.EnsureBinding | internal/controller/namespace_reconciler.go:259-295 | The binding is created, updated only if its spec differs, and read back; what is read back is the stored binding for this namespace and class |
| Reconciler.NamespaceReconciler.CleanupMissingClass | internal/controller/namespace_reconciler.go:297-315 | The whole inventory, then the binding, then the finalizer; a failure keeps the inventory, says CleanupFailed and is returned |
| Reconciler.NamespaceReconciler.ReconcileResources | internal/controller/namespace_reconciler.go:317-343 | Apply all, then delete stale, then one status write whose inventory is the union on failure and the desired list on success |
| Reconciler.NamespaceReconciler.RecordSuccess | internal/controller/namespace_reconciler.go:334-343 | The success status carries the sorted desired list, the class generation and the generation of the binding that was read |
| Reconciler.NamespaceReconciler.UpdateBindingFailureStatus | internal/controller/namespace_reconciler.go:346-362 | One status write that ends the pass; a failed write is an error |
| Reconciler.NamespaceReconciler.CleanupBindingForDeletingNamespace | internal/controller/namespace_reconciler.go:204-224 | Only cluster-scoped references are deleted, then the binding; every failure is returned |
| Reconciler.NamespaceReconciler.CleanupBindingForNamespace | internal/controller/namespace_reconciler.go:226-246 | The whole inventory, then the binding; a failed deletion is recorded and reported as pending, not as an error |
| Reconciler.NamespaceReconciler.DropBinding | internal/controller/namespace_reconciler.go:220-222 | The binding goes only after the delete loop has reached the end of its list |
| Reconciler.NamespaceReconciler.CleanInventory | internal/controller/namespace_reconciler.go:214-223 | What the three cleanups have in common (see also lines 235-245 and 298-313): the listed objects, then the binding; a blocked cleanup is recorded with the whole inventory and its reason |
| Reconciler.NamespaceReconciler.ApplyManagedResources | internal/controller/namespace_reconciler.go:443-466 | Nothing is applied unless everything was prepared; on success the references are those of the prepared objects in key order; on failure the references of exactly the objects applied |
| Reconciler.NamespaceReconciler.ApplyPrepared | internal/controller/namespace_reconciler.go:449-460 | The loop applies in list order and stops at the first failure with conflict or failure as its reason |
| Reconciler.NamespaceReconciler.ApplyOne | internal/controller/namespace_reconciler.go:450-460 | One round of the loop: the object is applied, or the outcome with everything applied before is recorded |
| Reconciler.NamespaceReconciler.PrepareManagedResources | internal/controller/namespace_reconciler.go:473-498 | The loop with its map of seen keys computes the all-or-nothing preparation of all templates, with at most one failing read |
| Reconciler.NamespaceReconciler.PrepareTemplate | internal/controller/namespace_reconciler.go:477-488 | Parse, render, prepare: one template |
| Reconciler.NamespaceReconciler.PrepareManagedResource | internal/controller/namespace_reconciler.go:646-681 | Required fields, policy, scope, ownership, in this order of precedence; the reference is read off the object after the markers were added and still names the same object. What the object then holds is Prepare.ShapedContent and Prepare.ShapedMarkers |
| Reconciler.NamespaceReconciler.EnsureCanManage | internal/controller/namespace_reconciler.go:683-698 | An existing object must carry the markers of this namespace (Unstructured.OwnedExactly); another one is a conflict, and a failed read is a failed apply |
| Reconciler.NamespaceReconciler.DeleteStaleManagedResources | internal/controller/namespace_reconciler.go:500-530 | The loop deletes in inventory order what is not desired, skips what is absent, and stops at the first reference that cannot be read, fetched, claimed or deleted |
| Reconciler.NamespaceReconciler.PassOver | internal/controller/namespace_reconciler.go:506-528 | One round of the loop: a desired reference is skipped, another one deleted, and a failure is what the pass then records |
| Reconciler.NamespaceReconciler.DeleteStaleResource | internal/controller/namespace_reconciler.go:511-528 | One object is deleted, and only if it is marked as owned by the namespace (Unstructured.OwnedExactly); what is absent counts as deleted, and a failure changes nothing |
| Reconciler.NamespaceReconciler.DesiredKeys | internal/controller/namespace_reconciler.go:501-504 | The loop collects the keys of the desired references |
| Reconciler.NamespaceReconciler.ClusterScopedResourceRefs | internal/controller/namespace_reconciler.go:396-404 | The loop keeps the references without a namespace, in order |
| Reconciler.NamespaceReconciler.HasNamespaceFinalizer | internal/controller/namespace_reconciler.go:434-441 | The loop decides whether the finalizer is in the list |
| Reconciler.NamespaceReconciler.EnsureNamespaceFinalizer | internal/controller/namespace_reconciler.go:406-415 | A namespace that has the finalizer is not written; to another one the finalizer is appended behind the list it has, and nothing else of it changes; this is done before the binding and before any object |
| Reconciler.NamespaceReconciler.RemoveNamespaceFinalizer | internal/controller/namespace_reconciler.go:417-432 | The stored list becomes the finalizers that are not the controller's own, in order and number, and nothing else of the namespace changes; no write when it was absent |
| Reconciler.NamespaceReconciler.OtherFinalizers | internal/controller/namespace_reconciler.go:421-426 | The loop keeps all finalizers but the controller's own, in order and number |
| Reconciler.NamespaceReconciler.RequestsForNamespaceClass | internal/controller/namespace_reconciler.go:112-138 | The requests are exactly the namespaces of the bindings indexed under the class, each once; a failed listing yields none |
| Reconciler.NamespaceReconciler.RequestsForItems | internal/controller/namespace_reconciler.go:119-137 | The loop with its set of seen names, for any order of the listing |
| Reconciler.StraightPass | internal/controller/namespace_reconciler.go:155-195 | A trace without failed calls that has come to its end is the fault-free pass |
| Wakeup.NoLostClassUpdate | internal/controller/namespace_reconciler.go:61-152 | In every state of every run, with class edits at any point of a pass, failed calls, restarts and no periodic requeue: a labelled namespace is queued, has an undelivered event, is in a pass that has yet to read the class or to write the binding, or was last reconciled against the current class, or the class event that will find it is undelivered |
| Wakeup.AtRestMeansCurrent | internal/controller/namespace_reconciler.go:61-152 | With an empty queue, no undelivered event and no pass running, the class of every labelled namespace exists, was read in its current version by the last pass, and is the one the binding and its status name; a namespace whose class is missing is never at rest |
| Quiescence.SilentPass | internal/controller/namespace_reconciler.go:78-110 | No step of a pass over a namespace that has the finalizer and whose binding names its existing class raises an event that gets through the predicates, whatever calls fail, and the pass is tried again only when a call failed |
| Quiescence.SilentExactly | internal/controller/namespace_reconciler.go:78-110 | A pass without failed calls for a class that exists is silent if and only if the namespace had the finalizer and a matching binding before |
| Quiescence.SecondPassIsSilent | internal/controller/namespace_reconciler.go:78-110 | After a success every further pass is silent, after a version bump and with two templates for one object too |
| Quiescence.ErrorsExactly | internal/controller/namespace_reconciler.go:155-195 | A pass is tried again if and only if its last step met a failed call or recorded that the cleanup for a deleted namespace or a missing class is blocked |
| Quiescence.ComesToRest | internal/controller/namespace_reconciler.go:155-202 | With class and namespace unchanged and no failed call, a queued namespace whose class exists is at rest after at most two passes, whatever they record: empty queue, no undelivered event, no pass running |
| Quiescence.ServedPassInWorld | internal/controller/namespace_reconciler.go:78-153 | A pass is heard at most about its own namespace, and leaves the queue alone |
| Wakeup.FanOutSpelled | internal/controller/namespace_reconciler.go:112-138 | For any bindings, the fan-out of a class is the set of non-empty namespace names that bindings of this class give, by their spec or else by their own name |
| Wakeup.FanOutExactly | internal/controller/namespace_reconciler.go:112-138 | In every state with the invariant, the fan-out of a class is exactly the set of namespaces bound to it |
| Wakeup.BindingAsksForItself | internal/controller/namespace_reconciler.go:140-153 | In every state with the invariant, the event of a binding asks for the namespace of the same name, and the pass for it takes over the status of this very binding |
| Wakeup.ClassReadAttends | internal/controller/namespace_reconciler.go:249-252 | After the class read the namespace is up to date, or the coming write of its binding will raise an event |
| Wakeup.BindingWriteAttends | internal/controller/namespace_reconciler.go:264-295 | Creating the binding or changing its spec raises the event that closes the window the fan-out misses |
| Wakeup.DeliveryKeepsWorldInv | internal/controller/namespace_reconciler.go:112-153 | Delivering an event loses nobody: a class event reaches every namespace that relies on it |
| Wakeup.PassKeepsWorldInv | internal/controller/namespace_reconciler.go:155-195 | Every step and every failure of a pass keeps all namespaces attended |
| Wakeup.EnvKeepsWorldInv | internal/controller/namespace_reconciler.go:61-110 | Every change of namespaces and classes is announced to whom it concerns |
| Wakeup.RestartKeepsWorldInv | internal/controller/namespace_reconciler.go:61-76 | A restart in the middle of a pass loses queue and events and still nobody is forgotten, because the first listing queues all |
| Wakeup.WorldStepKeepsInv | internal/controller/namespace_reconciler.go:61-195 | The invariant of the queue, the events and the passes together is inductive |
| Safety.StrongCoverage | internal/controller/namespace_reconciler.go:317-343 | After any run in which every pass that applied something gets to write its status, whatever else fails, every object applied for a namespace is in its inventory (for a namespace being deleted: every cluster-scoped one) |
| Safety.CoverageInsidePass | internal/controller/namespace_reconciler.go:317-343 | Inside a pass the objects applied so far make up the difference |
| History.WeakCoverage | internal/controller/namespace_reconciler.go:317-341 | After any run, whatever failed, an object that an inventory misses was lost by a pass that ended before recording it, and is in the desired set of a class version that a pass of this run read, for metadata with that namespace UID |
| Safety.FinalizerGuard | internal/controller/namespace_reconciler.go:253-257 | At every point of such a run a namespace with a live applied cluster-scoped object carries the finalizer |
| Safety.ReleasedIsClean | internal/controller/namespace_reconciler.go:417-432 | The step that takes the finalizer away, on any of the three ways, leaves nothing to clean up |
| Safety.DeletionComplete | internal/controller/namespace_reconciler.go:204-224 | Every applied object belongs to a namespace that exists and is in that namespace or cluster-scoped, so no object outlives its namespace |
| History.TruthfulStatus | internal/controller/namespace_reconciler.go:286-341 | In every state of every run, inside passes too, a status that is Ready for the current generation was written by a pass of this run that had itself read that class, in that generation, for that metadata of the namespace, and the inventory is exactly the sorted desired list of what this pass read |
| History.RunHistory | internal/controller/namespace_reconciler.go:248-343 | What runs have read accounts for every loss, every recorded success and everything a pass holds |
| Safety.CanonicalInventories | internal/controller/namespace_reconciler.go:536-556 | Every stored inventory is strictly sorted by key and names objects in the bound namespace or cluster-scoped ones |
| Safety.NonInterference | internal/controller/namespace_reconciler.go:500-530 | At every point of a pass: objects not marked for the namespace, the other namespaces, their bindings and all classes are as before, and the invariant holds for them |
| Safety.LeavesUnownedAlone | internal/controller/namespace_reconciler.go:500-530 | At every point of a pass an object is unchanged whose managed label is not "true" or whose owner annotation is not the UID of the namespace, both read off the object as written |
| Safety.LeavesOthersObjects | internal/controller/namespace_reconciler.go:683-723 | An object sent for one namespace UID is neither overwritten nor deleted by a pass for a namespace with another |
| Safety.KeepsOtherFinalizers | internal/controller/namespace_reconciler.go:406-432 | At every point of a pass the finalizers that are not the controller's own are those the namespace had when the pass began, in order and number, and its metadata and deletion mark are as they were |
| Safety.WithoutIsOthers | internal/controller/namespace_reconciler.go:421-426 | Filtering the finalizer out leaves exactly the other ones, in order and number |
| Safety.ReadsLabelledClass | internal/controller/namespace_reconciler.go:164-252 | The class a pass reads is the one the label of the namespace names; a pass reads none for a namespace that is being deleted or has no such label |
| Safety.ApplyBeforeDelete | internal/controller/namespace_reconciler.go:317-332 | When a pass that found its class removes an object, all desired objects have been applied on top of the store it started from, and exactly the stale ones so far have been removed |
| Safety.ApplyStopsAtK | internal/controller/namespace_reconciler.go:449-460 | If applying stops at index k, exactly the first k objects have been applied, none is gone, and the recorded inventory is the previous one and the first k references |
| Safety.ClosedGate | internal/controller/namespace_reconciler.go:318-325 | A template that cannot be prepared leaves all objects and the inventory as they were, and the recorded reason is that of the first such template |
| Safety.CleanupOnlyRemoves | internal/controller/namespace_reconciler.go:226-246 | A pass that serves no class, failed or not, adds and changes no object |
| Safety.CleanupNeedsNotFound | internal/controller/namespace_reconciler.go:298-315 | Cleanup for a missing class happens only when the read found the class missing, never when a read failed |
| Steps.ReachableInv | internal/controller/namespace_reconciler.go:155-195 | Coverage, finalizers, ownership, scope, canonical inventories and truthful status together hold in every reachable state of every run |
| Steps.StepKeepsInv | internal/controller/namespace_reconciler.go:155-195 | The invariant is inductive over passes, failures and the environment |
| Steps.PassKeepsInv | internal/controller/namespace_reconciler.go:155-195 | Every step and every failure of a pass keeps the invariant |
| Steps.NamespaceReadStep | internal/controller/namespace_reconciler.go:164-191 | The branch on deletion and label keeps the invariant |
| Steps.ClassReadStep | internal/controller/namespace_reconciler.go:253-257 | Adding the finalizer keeps the invariant and guards what follows |
| Steps.GuardedStep | internal/controller/namespace_reconciler.go:259-295 | Creating or updating the binding keeps the recorded inventory and cannot make a stale status look current |
| Steps.BoundStep | internal/controller/namespace_reconciler.go:317-325 | Opening or closing the prepare gate keeps the invariant, whichever read fails |
| Steps.ApplyingStep | internal/controller/namespace_reconciler.go:449-460 | Applying one object keeps the invariant, though the object is not recorded yet |
| Steps.ApplyFailureStep | internal/controller/namespace_reconciler.go:317-325 | Stopping in the apply loop with the union as inventory keeps the invariant |
| Steps.DeletingStep | internal/controller/namespace_reconciler.go:506-528 | Deleting one object, skipping one, stopping or finishing keeps the invariant |
| Steps.DeleteFailureStep | internal/controller/namespace_reconciler.go:326-332 | Stopping in the delete loop keeps the invariant in all four places it is used |
| Steps.CleanupLeavesNothing | internal/controller/namespace_reconciler.go:506-528 | A finished cleanup loop leaves no object of the namespace that the inventory answers for |
| Steps.StaleLeavesKept | internal/controller/namespace_reconciler.go:506-528 | A finished prune loop leaves of the recorded objects only desired ones |
| Steps.RecordingStep | internal/controller/namespace_reconciler.go:334-341 | The status write turns what the pass claims into what is recorded |
| Steps.DroppingStep | internal/controller/namespace_reconciler.go:220-222 | Deleting the binding after cleanup keeps the invariant |
| Steps.ReleasingStep | internal/controller/namespace_reconciler.go:417-432 | Taking the finalizer away keeps the invariant |
| Steps.AbortStep | internal/controller/namespace_reconciler.go:339-341 | A pass that stops anywhere keeps the invariant; what it had applied and not recorded is accounted for as lost |
| Steps.EnvKeepsInv | internal/controller/namespace_reconciler.go:155-162 | Users, other controllers and the garbage collector keep the invariant |
| Convergence.PassOutcome | internal/controller/namespace_reconciler.go:317-343 | A pass without failed calls, from any state with the invariant, ends exactly in the state given by the first obstacle in the order prepare, apply, delete: reason, recorded inventory, store, finalizer and binding |
| Convergence.ReadyExactly | internal/controller/namespace_reconciler.go:317-343 | A pass without failed calls reports success if and only if all templates can be prepared, the server accepts all names, and no stale object is unreadable or foreign |
| Convergence.Converges | internal/controller/namespace_reconciler.go:317-343 | From a covered state, whatever classes came before, a successful pass records the sorted desired list, and the objects applied for the namespace are the desired ones if and only if no dropped reference names a desired object under another API version |
| Convergence.OneVersionNoClash | internal/controller/namespace_reconciler.go:532-534 | The condition of convergence holds whenever every object is named at one version |
| Convergence.HistoryIndependent | internal/controller/namespace_reconciler.go:226-246 | Two clusters with any histories end with the same inventory, the same owned objects and the same contents |
| Convergence.RestoresCoverageExactly | internal/controller/namespace_reconciler.go:346-362 | After a lost record a successful pass restores coverage if and only if every lost object is desired or pruned |
| Convergence.SamePassRestores | internal/controller/namespace_reconciler.go:346-362 | When a pass over a covered cluster is cut off at any point before it records, the next pass that reads the same class for the same metadata restores coverage if it succeeds |
| Convergence.ClaimedByClass | internal/controller/namespace_reconciler.go:317-341 | What a pass has applied and not recorded is desired by the class it read, for the metadata it read |
| Convergence.SuccessfulPass | internal/controller/namespace_reconciler.go:317-343 | The state after a successful pass as a function of the state before |
| Convergence.DriveBlocked | internal/controller/namespace_reconciler.go:506-528 | A blocked delete loop deletes what comes before the first reference that blocks, and records the failure |
| Convergence.DriveRefused | internal/controller/namespace_reconciler.go:449-460 | The apply loop applies what comes before the first name that is refused, and records the failure |
| Repetition.IdempotentExactly | internal/controller/namespace_reconciler.go:317-343 | Repeating a successful pass on an unchanged class and namespace is the identity if and only if the first pass dropped no reference to a desired object under another version |
| Repetition.TwoPassesConverge | internal/controller/namespace_reconciler.go:317-343 | Version bumps included, the second successful pass leaves exactly the desired objects, and every further one is the identity |
| Repetition.QuietPass | internal/controller/namespace_reconciler.go:248-343 | Over a settled cluster no point of a pass differs from its start |
| Repetition.PassSettles | internal/controller/namespace_reconciler.go:334-341 | A successful pass settles the namespace |
| Repetition.SettledIsFixed | internal/controller/namespace_reconciler.go:248-343 | A settled cluster is a fixed point |
| Repetition.ApplyAgain | internal/controller/namespace_reconciler.go:449-460 | Applying again restores exactly the desired objects that pruning had removed |
| Cleanup.CleanupExactly | internal/controller/namespace_reconciler.go:204-246 | Without failed calls, cleanup for a deleted namespace, a removed label or a missing class removes all listed objects, the binding and the finalizer if and only if nothing blocks; otherwise it stops short with inventory, binding and finalizer kept and the right reason |
| Cleanup.BlockedCleanup | internal/controller/namespace_reconciler.go:298-310 | What a blocked cleanup leaves, on all three ways |
| Cleanup.UnblockedCleanup | internal/controller/namespace_reconciler.go:311-315 | What an unblocked cleanup leaves, on all three ways |
| Cleanup.WithoutRemoves | internal/controller/namespace_reconciler.go:421-426 | Filtering takes the finalizer and nothing else |
| Invariants.ClusterScopedInOrder | internal/controller/namespace_reconciler.go:396-404 | The references without a namespace are taken one by one in the order of the list |
| Limits.AbortLosesExactly | internal/controller/namespace_reconciler.go:339-341 | A pass that stops early keeps the inventory complete if and only if what it had applied was recorded before |
| Limits.LossIsReachable | internal/controller/namespace_reconciler.go:339-341 | From any untouched cluster with one template a run leads to an object that no inventory names: strong coverage needs its hypothesis |
| Limits.LossOutlivesReads | internal/controller/namespace_reconciler.go:317-341 | After such a loss the namespace can move to another class and have its success recorded, so that the lost object is outside the inventory and outside everything desired by a class read since the loss |
| Samples.SampleLoss | internal/controller/namespace_reconciler.go:339-341 | A run of one concrete cluster, written out in full, that ends with an object no inventory names |
| Samples.SampleLossOutlivesReads | internal/controller/namespace_reconciler.go:317-341 | That run continued until the object is outside the inventory and all that was read since |
| Samples.SampleVersionBump | internal/controller/namespace_reconciler.go:506-528 | A reachable state of a concrete cluster in which the class has moved a widget to another API version, the widget is gone, and the status is Ready with an inventory that names it |
| Samples.SampleRestsPartlyApplied | internal/controller/namespace_reconciler.go:318-325 | A reachable state of a concrete cluster with empty queue, no undelivered event and no pass running, in which one template of two is applied and the status is ApplyFailed |
| Limits.VersionBumpDeletes | internal/controller/namespace_reconciler.go:506-528 | Moving a desired object to another API version makes one pass apply it, delete it, and report success with an inventory that names it |
| Limits.FirstPassConverges | internal/controller/namespace_reconciler.go:317-343 | The first pass over an untouched cluster converges |
| Prepare.PrepareGate | internal/controller/namespace_reconciler.go:473-498 | The gate opens if and only if no template has a problem of its own; its reason is that of the first one that has; what it lets through is every template, with distinct keys, no foreign object, allowed by the policy and scoped by the mapping. What kind a template has and what the policy makes of it is Prepare.PolicyDecidesTemplate |
| Prepare.ShapedIsWellPrepared | internal/controller/namespace_reconciler.go:646-681 | Every prepared object carries the markers, an allowed kind, the namespace its scope asks for, and the reference that will be recorded |
| Prepare.ShapedContent | internal/controller/namespace_reconciler.go:473-488 | At every path outside the metadata, and in all metadata but what the controller writes, the prepared object has what the template has there, with string leaves rendered for this namespace and class |
| Prepare.PreparedContent | internal/controller/namespace_reconciler.go:473-498 | The same of every object the gate lets through, template by template |
| Prepare.ShapedMarkers | internal/controller/namespace_reconciler.go:707-723 | Every prepared object is labelled as managed, with the class and the name of its namespace, and annotated with the UID |
| Prepare.ConflictExactly | internal/controller/namespace_reconciler.go:683-705 | A template that is otherwise fine is an ApplyConflict if and only if an object of its identity exists that is not labelled as managed or not annotated with this UID |
| Prepare.ContestedIsConflict | internal/controller/namespace_reconciler.go:683-705 | When two namespaces with different UIDs render one object, whoever comes second is refused with ApplyConflict |
| Prepare.PolicyDecidesTemplate | internal/controller/namespace_reconciler.go:646-681 | With a policy read from two written lists, a template that spells a kind and a name is GvkDenied if and only if the kind is on the deny list, or there is an allow list without it; otherwise it is prepared exactly when the kind is mapped, under the group, kind, scope and name it spells |
| Prepare.DefaultPolicyRefuses | internal/policy/gvk_policy.go:10-28 | Under the default deny list a template for a cluster role binding is GvkDenied |
| Prepare.DefaultPolicyAllows | internal/policy/gvk_policy.go:42-53 | Under the same policy a deployment is prepared where it is mapped |
| Prepare.IdentityCheckExactly | internal/controller/namespace_reconciler.go:647-666 | The check that API version and kind are present refuses exactly the objects without a kind or with an unreadable API version; without an API version an object is prepared if and only if it has kind and name and the policy and the mapping know the kind without group and version |
| Prepare.PreparedWithoutApiVersion | internal/controller/namespace_reconciler.go:647-666 | An object without API version that is prepared |
| Prepare.DesiredUnique | internal/controller/namespace_reconciler.go:473-498 | The desired set is a function of the class and the metadata alone |
| Prepare.DesiredPasses | internal/controller/namespace_reconciler.go:473-498 | The desired set passes the gate whenever none of its objects is foreign |
| Prepare.SortedPermutes | internal/controller/namespace_reconciler.go:462-464 | Sorting references with distinct keys only reorders them |
| Prepare.TemplateValuesDisjoint | internal/controller/namespace_reconciler.go:589-602 | Name, UID, class, every label and every annotation has its own value under its own written-out key, and there are no other keys |
| Prepare.NameTokenRenders | internal/controller/namespace_reconciler.go:589-602 | Wherever a text has a token for the name of the namespace, with or without blanks in it, the name of the namespace is put |
| Prepare.NameRenders | scripts/manual-test-setup.sh:84 | The name in the repository's own class renders to the name of the namespace and its suffix |
| Prepare.ComputeTemplateValues | internal/controller/namespace_reconciler.go:589-602 | The map literal and the two loops compute that union |
| Prepare.AddPrefixed | internal/controller/namespace_reconciler.go:595-600 | One loop over a map in any order |
| Unstructured.RenderTemplateValue | internal/controller/namespace_reconciler.go:617-644 | The recursion with its loops terminates and computes the rendered tree |
| Unstructured.RenderFields | internal/controller/namespace_reconciler.go:619-628 | The loop over a map gives the same result in any order |
| Unstructured.RenderItems | internal/controller/namespace_reconciler.go:629-638 | The loop over a list |
| Unstructured.RenderingPreservesShape | internal/controller/namespace_reconciler.go:617-644 | At every path the rendered tree has a node of the same shape, with the same keys or length; string leaves are rendered by the scanner and other leaves are untouched |
| Unstructured.RenderingFailsExactly | internal/controller/namespace_reconciler.go:617-644 | Rendering fails if and only if some string leaf cannot be rendered |
| Unstructured.UnresolvedLeaf | internal/controller/namespace_reconciler.go:617-644 | When rendering fails, a path leads to a string leaf that cannot be rendered |
| Unstructured.ManagedIsMarked | internal/controller/namespace_reconciler.go:700-723 | The object sent is always recognised as owned by the namespace, keeps its identity, and keeps the other labels and annotations of the template |
| Unstructured.OwnedExactly | internal/controller/namespace_reconciler.go:700-705 | An object counts as owned by a namespace if and only if its managed label is written as "true" and its owner annotation as the UID of the namespace |
| Unstructured.ManagedKeepsBody | internal/controller/namespace_reconciler.go:662-673 | The object sent differs from the rendered template in labels, annotations, namespace, resourceVersion and managedFields at most; the last two are not sent, and the namespace is the one given or none |
| Unstructured.ManagedMarkers | internal/controller/namespace_reconciler.go:707-723 | The three labels and the annotation of the object sent, each under its written-out key with its own value; every other label and annotation reads as in the template |
| Unstructured.OwnLabelsSurviveExactly | internal/controller/namespace_reconciler.go:707-723 | The labels (annotations) of the template that the markers do not overwrite reach the object sent if and only if all of its labels (annotations) are strings or it has none besides the markers |
| Unstructured.NumberLosesLabels | internal/controller/namespace_reconciler.go:707-717 | A template with a number among its labels is applied without any of them |
| Template.RenderString | internal/template/render.go:11-33 | The scanner with its list of missing keys computes the single-pass substitution |
| Template.RenderedByTokenization | internal/template/render.go:11-33 | For any split of the text into tokens and other characters, the result is the substitution along it, and it fails if and only if some token has no value, with the missing keys in order |
| Template.SegmentsTokenize | internal/template/render.go:9-13 | Every text has such a split |
| Template.TokenizationUnique | internal/template/render.go:9-13 | The split is unique, so no other order of matching could give another result |
| Template.TokenLengthMatches | internal/template/render.go:9 | The scanner finds a token of length n at a position exactly when one starts there in the sense of Template.TokenSpelled |
| Template.TokenSpelled | internal/template/render.go:9 | A token of length n is two opening braces, one or more characters that are neither an opening nor a closing brace, and two closing braces |
| Template.RenderToken | internal/template/render.go:13-27 | A token in front of a text is replaced by the value of its trimmed key, followed by the rendering of the rest; without a value its key is reported before those of the rest |
| Template.RenderText | internal/template/render.go:11-33 | A character in front that opens no token stays in front of the rendering of the rest; with RenderToken this determines the result for every text |
| Template.RenderPrefix | internal/template/render.go:11-33 | A text without an opening brace stays in front of the rendering of the rest |
| Strings.TrimsAround | internal/template/render.go:20 | Blanks, tabs and line ends around a printable text go, and nothing of the text does |
| Template.NothingMissing | internal/template/render.go:20-25 | No key is reported missing exactly when every token has a value |
| Template.SubstituteConcat | internal/template/render.go:11-33 | Substituted values are not scanned again: substitution works piece by piece |
| Template.TextUntouched | internal/template/render.go:11-33 | Text without tokens is unchanged |
| Template.RenderingTwiceDiffers | internal/template/render.go:11-33 | Rendering is not idempotent: a rendered text can hold a new token |
| GvkPolicy.ParseFormat | internal/policy/gvk_policy.go:55-97 | Reading a printed kind gives it back if and only if it is well formed |
| GvkPolicy.GvkReads | internal/policy/gvk_policy.go:82-97 | Three words with slashes between are read as group, version and kind, two as version and kind |
| GvkPolicy.FormatParse | internal/policy/gvk_policy.go:55-97 | Printing what was read gives the trimmed text |
| GvkPolicy.FormatInjective | internal/policy/gvk_policy.go:55-60 | Different kinds without slashes print differently |
| GvkPolicy.ParseCsv | internal/policy/gvk_policy.go:62-80 | The loop yields the set of printed kinds of the listed items, or fails exactly when an item cannot be read |
| GvkPolicy.FromCsv | internal/policy/gvk_policy.go:30-40 | The policy the two lists denote, or a failure when one of them cannot be read |
| GvkPolicy.ListsConcat | internal/policy/gvk_policy.go:62-80 | A comma separates: a list denotes what its two parts denote together, and is unreadable if one of them is |
| GvkPolicy.WrittenListParses | internal/policy/gvk_policy.go:62-80 | A list of printed kinds, with any white space around them and any blank items between, reads back as exactly those kinds |
| GvkPolicy.ValidateDecides | internal/policy/gvk_policy.go:42-53 | A policy read from two such lists decides on kinds, not on texts: denied first, then allowed if the allow list is empty or has it |
| ResourceRefs.MergeResourceRefs | internal/controller/namespace_reconciler.go:536-556 | The two loops into a map, the sorted keys and the loop back compute the merge |
| ResourceRefs.SortedKeys | internal/controller/namespace_reconciler.go:545-549 | The keys of a map in strictly increasing order |
| Strings.LessAtFirstDifference | internal/controller/namespace_reconciler.go:545-549 | The order of the keys is decided by the first character in which two of them differ, and an initial part comes first |
| ResourceRefs.MergeIsUnion | internal/controller/namespace_reconciler.go:536-556 | The merge is strictly increasing by key and is the union by key, the right list winning |
| ResourceRefs.MergeAssociative | internal/controller/namespace_reconciler.go:536-556 | Merging is associative |
| ResourceRefs.MergeIdempotent | internal/controller/namespace_reconciler.go:536-556 | Merging a canonical list with itself or with nothing changes nothing |
| ResourceRefs.MergeMembers | internal/controller/namespace_reconciler.go:536-556 | On references the server accepts the merge is the plain set union |
| ResourceRefs.CanonicalUnique | internal/controller/namespace_reconciler.go:536-556 | A canonical list is determined by its set of keyed references |
| ResourceRefs.SortedIsCanonical | internal/controller/namespace_reconciler.go:462-464 | Sorting gives a strictly increasing list with the same keys |
| ResourceRefs.KeyInjective | internal/controller/namespace_reconciler.go:532-534 | The slash key determines the reference when kind, namespace and name have no slash, though the API version may |
| ResourceRefs.KeyCollides | internal/controller/namespace_reconciler.go:532-534 | With a slash in a name two different references share a key |
| ResourceRefs.KeysSpelled | internal/controller/namespace_reconciler.go:532-534 | Both keys of one reference, written out |
| ResourceRefs.ApiVersionReads | internal/controller/namespace_reconciler.go:558-562 | An API version is read as group and version around the slash, and without a slash as a version of the core group |
| ResourceRefs.SameObjectExactly | internal/controller/namespace_reconciler.go:558-568 | Two references name one object if and only if group, kind, namespace and name agree, whatever the versions |
| ResourceRefs.VersionsShareObject | internal/controller/namespace_reconciler.go:558-568 | Two references with different keys can name one stored object |
| ResourceRefs.InventoryKeyDefined | internal/inventory/resource_ref.go:15-27 | The NUL-separated key exists exactly when API version, kind and name are not blank |
| ResourceRefs.InventoryKeyInjective | internal/inventory/resource_ref.go:15-27 | The NUL-separated key determines the reference when no part has a NUL |
| ResourceRefs.KeysAgree | internal/inventory/resource_ref.go:15-27 | The slash key and the NUL-separated key identify the same pairs of references |

## Left out

- History.WeakCoverage: says that a lost object is desired by a class version some pass of the run read, and not that this was read since the last recorded write, because the latter is false: Samples.SampleLossOutlivesReads. The exact condition under which a pass restores coverage is Convergence.RestoresCoverageExactly.
- Safety.StrongCoverage: assumes that a pass that applied something gets to write its status; Limits.LossIsReachable shows that this cannot be dropped.
- Convergence.Converges: speaks of objects applied by the controller; server-side apply replaces the whole content, so merging with fields of other managers is not modelled.
- Reconciler.NamespaceReconciler.Reconcile: classes do not change while a pass of the object runs; class edits inside a pass are covered by Machine.EnvStep and by Wakeup.
- Wakeup.NoLostClassUpdate: assumes that the listing behind a class event succeeds, as the code drops the event when it does not (internal/controller/namespace_reconciler.go:114-117), and that a request that returned an error is queued again.
- Edits of namespaces and objects inside a pass, stale informer caches and resourceVersion conflicts: a pass reads fresh state; a conflict is a failed call.
- External edits of bindings and of the controller's finalizer, and management of Namespace, NamespaceClass or NamespaceClassBinding objects by a class.
- The REST mapper is a partial function from kinds to scopes; discovery errors are absences.
- Objects that linger because of their own finalizers: deletion is immediate. The garbage collector is a series of object deletions.
- JSON decoding and the conversion of typed objects (internal/controller/namespace_reconciler.go:570-587): a template is unreadable or a tree. Numbers are integers; they pass through rendering untouched.
- Error texts, timestamps, logs, and the class condition's message.
- Go's regular expression engine: the token pattern (internal/template/render.go:9) is written as a scanner. Unicode white space is the list in Strings.IsSpace.
- The manager, its flags and probes, leader election, the Helm chart, the manifests and the scripts.

## Where the code and its documentation differ

The model follows the code.

- docs/design/namespaceclass-design.md:380-390 asks for a requeue after a partial apply; the code returns no error there (internal/controller/namespace_reconciler.go:318-325), nor after a failed cleanup once the label was removed (:182-184). Quiescence.ErrorsExactly says which passes are tried again, and Samples.SampleRestsPartlyApplied is a system at rest with one template of two applied. Only the periodic requeue, when it is on, tries again.
- docs/design/namespaceclass-design.md:389 asks not to lose inventory for objects already created; see Limits.AbortLosesExactly and Samples.SampleLoss.
- CONTEXT.md:8 keys the inventory by API version, while the cluster stores one object for all versions; see Convergence.Converges and Samples.SampleVersionBump.
- internal/controller/namespace_reconciler.go:649 says that API version and kind are required; an object without an API version gets past it (Prepare.IdentityCheckExactly, Prepare.PreparedWithoutApiVersion).
- One label of a template that is not a string loses all its labels when the markers are added, as the accessor drops the whole map (internal/controller/namespace_reconciler.go:708); the same holds of annotations (Unstructured.OwnLabelsSurviveExactly, Unstructured.NumberLosesLabels).
