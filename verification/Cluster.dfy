/** The API server's state as the controller sees it. */
module Cluster {
  import opened Wrappers
  import opened ResourceRefs
  import Unstructured

  const ClassLabelKey := "namespaceclass.akuity.io/name"
  const Finalizer := "namespaceclass.akuity.io/finalizer"

  /** The part of a namespace that templates can see. */
  datatype Meta = Meta(name: string, uid: string, labels: map<string, string>, annotations: map<string, string>)

  datatype Namespace = Namespace(meta: Meta, finalizers: seq<string>, deleting: bool)
  {
    /** The class the namespace asks for; "" when it asks for none. */
    function ClassName(): string {
      Unstructured.Lookup(meta.labels, ClassLabelKey)
    }

    predicate HasFinalizer() {
      Finalizer in finalizers
    }
  }

  /** One entry of spec.resources: JSON that cannot be read, or an object. */
  datatype RawResource = Unreadable | Readable(fields: Unstructured.Fields)

  datatype NamespaceClass = NamespaceClass(name: string, generation: nat, resources: seq<RawResource>)

  datatype Reason =
    | BindingRecorded | ClassNotFound | CleanupFailed | GvkDenied
    | ApplyConflict | ApplyFailed | DeleteFailed | DuplicateResource

  /** The Ready condition. */
  datatype Condition = Condition(ready: bool, reason: Reason, observedGeneration: nat)

  datatype Status = Status(observedUid: string, observedClassGeneration: nat,
                           inventory: seq<ResourceRef>, condition: Option<Condition>)

  const EmptyStatus := Status("", 0, [], None)

  datatype Binding = Binding(namespaceName: string, className: string, generation: nat, status: Status)

  /** The managed side of the cluster. Besides the objects themselves, two history variables: who applied
      an object last, and which applied objects belong to a pass that ended before it could record them. Both
      forget an object when it goes, and an object applied again is no longer pending. */
  datatype Store = Store(objects: map<ObjectId, Unstructured.Fields>,
                         applied: map<ObjectId, string>,
                         pending: set<ObjectId>)
  {
    function Apply(id: ObjectId, content: Unstructured.Fields, uid: string): Store {
      Store(objects[id := content], applied[id := uid], pending - {id})
    }

    function Remove(ids: set<ObjectId>): Store {
      Store(objects - ids, applied - ids, pending - ids)
    }
  }

  /** The last field is history: every UID ever given out. */
  datatype Cluster = Cluster(namespaces: map<string, Namespace>,
                             classes: map<string, NamespaceClass>,
                             bindings: map<string, Binding>,
                             store: Store,
                             uids: set<string>)
}
