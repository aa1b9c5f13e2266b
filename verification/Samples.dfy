/** Concrete clusters that get where the guarantees end. */
module Samples {
  import opened Wrappers
  import opened Strings
  import opened Template
  import opened GvkPolicy
  import opened ResourceRefs
  import opened Cluster
  import opened Prepare
  import opened Machine
  import opened Invariants
  import opened Steps
  import opened Safety
  import opened History
  import opened Convergence
  import opened Limits
  import opened Wakeup
  import opened Quiescence
  import U = Unstructured

  // ----- A cluster -----

  /** A widget at some API version, without tokens to render. */
  function Widget(version: string, name: string): U.Fields {
    map["apiVersion" := U.Str(version), "kind" := U.Str("Widget"), "metadata" := U.Obj(map["name" := U.Str(name)])]
  }

  const SampleSetup :=
    Setup(Policy({}, {}), map[Gvk("", "v1", "Widget") := Namespaced, Gvk("", "v1beta1", "Widget") := Namespaced])

  /** The class "small" at some generation: one widget at some version. */
  function SmallClass(generation: nat, version: string): NamespaceClass {
    NamespaceClass("small", generation, [Readable(Widget(version, "app"))])
  }

  const EmptyClass := NamespaceClass("empty", 1, [])

  function MetaFor(className: string): Meta {
    Meta("web", "uid", map[ClassLabelKey := className], map[])
  }

  /** A namespace "web" that asks for a class, before the controller has seen it. */
  function ClusterWith(cls: NamespaceClass): Cluster {
    Cluster(map["web" := Namespace(MetaFor(cls.name), [], false)], map[cls.name := cls, "empty" := EmptyClass], map[],
            Store(map[], map[], {}), {"uid"})
  }

  lemma StartsUntouched(cls: NamespaceClass)
    requires cls.name != "" && cls.name != "empty"
    ensures Init(Config(ClusterWith(cls), Idle)) && Serves(ClusterWith(cls), "web", cls)
  {
  }

  // ----- Its templates -----

  lemma PlainText(s: string, values: Values)
    requires '{' !in s
    ensures U.RenderedTree(U.Str(s), values) == Some(U.Str(s))
  {
    hide Rendered;
    forall i, n: nat | 0 <= i < |s|
      ensures !StartsToken(s[i..], n)
    {
      if |s[i..]| >= 2 {
        assert s[i..][..2][0] == s[i];
      }
    }
    TextUntouched(s, values);
  }

  lemma WidgetRenders(version: string, name: string, values: Values)
    requires '{' !in version && '{' !in name
    ensures U.RenderedTree(U.Obj(Widget(version, name)), values) == Some(U.Obj(Widget(version, name)))
  {
    hide Rendered;
    PlainText(version, values);
    PlainText("Widget", values);
    PlainText(name, values);
    var metadata: U.Fields := map["name" := U.Str(name)];
    U.FieldsRendered(metadata, values, metadata);
    U.FieldsRendered(Widget(version, name), values, Widget(version, name));
  }

  lemma PlainVersion(version: string)
    requires version != "" && '/' !in version
    ensures ParseGroupVersion(version) == Some(GroupVersion("", version))
  {
    SplitAlone(version);
  }

  lemma SplitAlone(s: string)
    requires '/' !in s
    ensures Split(s, '/') == [s]
  {
  }

  /** What a widget of the class becomes in the namespace. */
  lemma WidgetShape(version: string, name: string, className: string) returns (p: Prepared)
    requires version == "v1" || version == "v1beta1"
    requires '{' !in name && name != ""
    ensures Shaped(SampleSetup, MetaFor(className), className, Readable(Widget(version, name))) == Success(p)
    ensures p.ref == ResourceRef(version, "Widget", "web", name)
    ensures ObjectOf(p.ref) == Some(ObjectId("", "Widget", "web", name))
    ensures U.IsManagedBy(p.content, "uid")
  {
    hide U.RenderedTree, TemplateValues, U.Managed, ParseGroupVersion, U.IsManagedBy;
    WidgetRenders(version, name, TemplateValues(MetaFor(className), className));
    PlainVersion(version);
    assert GvkOf(Widget(version, name)) == Gvk("", version, "Widget");
    p := Shaped(SampleSetup, MetaFor(className), className, Readable(Widget(version, name))).value;
    ShapedIsWellPrepared(SampleSetup, MetaFor(className), className, Readable(Widget(version, name)));
    WellPreparedScope(SampleSetup, MetaFor(className), p);
  }

  lemma OnePrepared(cls: NamespaceClass, objects: map<ObjectId, U.Fields>, p: Prepared)
    requires |cls.resources| == 1
    requires Shaped(SampleSetup, MetaFor(cls.name), cls.name, cls.resources[0]) == Success(p)
    requires !Foreign(objects, p.ref, "uid")
    ensures PreparedAll(SampleSetup, MetaFor(cls.name), cls, objects, 1) == Success([p])
  {
    hide Shaped, Foreign;
    assert PreparedOne(SampleSetup, MetaFor(cls.name), cls.name, cls.resources[0], objects, false) == Success(p);
    assert PreparedPrefix(SampleSetup, MetaFor(cls.name), cls, objects, 1, 0) == Success([]);
    assert [] + [p] == [p];
  }

  // ----- Losses -----

  const WidgetId := ObjectId("", "Widget", "web", "app")

  /** A run of this cluster that ends with an object no inventory names. */
  lemma SampleLoss() returns (run: seq<Config>)
    ensures IsRun(SampleSetup, run)
    ensures var s := run[|run| - 1];
            && s.phase.Idle? && Owns(s.c, "web", WidgetId) && !FullyCovered(s.c, "web")
            && WidgetId in s.c.store.pending && "web" in s.c.bindings && s.c.bindings["web"].status == EmptyStatus
            && s.c.namespaces["web"].meta == MetaFor("small") && !s.c.namespaces["web"].deleting
            && s.c.classes == ClusterWith(SmallClass(1, "v1")).classes
  {
    hide Shaped, IsRun, FullyCovered, Init, Foreign, PreparedAll, Serves;
    var cls := SmallClass(1, "v1");
    var p := WidgetShape("v1", "app", "small");
    StartsUntouched(cls);
    assert !Foreign(map[], p.ref, "uid") by { NothingForeign(p.ref); }
    OnePrepared(cls, map[], p);
    run := LossIsReachable(SampleSetup, ClusterWith(cls), "web", cls, p);
  }

  lemma NothingForeign(ref: ResourceRef)
    ensures !Foreign(map[], ref, "uid")
  {
  }

  /** The object lost by a pass for one class is, after the namespace has moved to another class and a pass has
      recorded that, outside both the inventory and everything desired by a class read since the loss. */
  lemma SampleLossOutlivesReads() returns (run: seq<Config>, k: nat)
    ensures IsRun(SampleSetup, run) && 0 < k < |run| - 1
    ensures var s, before := run[|run| - 1], run[|run| - 2];
            && before.phase.Recording? && s == AfterRecording(before) && s.phase.Idle?
            && Owns(s.c, "web", WidgetId) && WidgetId !in Recorded(s.c, "web")
            && "web" in s.c.bindings && ReportsReady(s.c.bindings["web"])
    ensures forall j, meta, cls, resources | k <= j < |run| && ReadsClass(run[j], meta, cls)
                                             && Desires(SampleSetup, meta, cls, resources) ::
              WidgetId !in ObjectsOf(Refs(resources))
  {
    hide Step, Init, FullyCovered, Desires, ReadsClass, Recorded;
    var first := SampleLoss();
    k := |first|;
    run := LossOutlivesReads(SampleSetup, first, "web", EmptyClass, MetaFor("empty"), WidgetId);
  }

  // ----- A version bump -----

  lemma InitReachable(setup: Setup, s: Config)
    requires Init(s)
    ensures Reachable(setup, s)
  {
    assert IsRun(setup, [s]) && [s][|[s]| - 1] == s;
  }

  /** After the first pass the widget is stored at its old version. */
  lemma AfterFirstPass() returns (c: Cluster, p: Prepared)
    ensures Reachable(SampleSetup, Config(c, Idle))
    ensures p.ref == ResourceRef("v1beta1", "Widget", "web", "app")
    ensures "web" in c.namespaces && c.namespaces["web"].meta == MetaFor("small") && Labelled(c.namespaces["web"])
    ensures c.classes == ClusterWith(SmallClass(1, "v1beta1")).classes
    ensures PreviousInventory(c, "web") == [p.ref]
    ensures c.store.objects == map[WidgetId := p.content] && U.IsManagedBy(p.content, "uid")
  {
    hide Shaped, Foreign, PreparedAll, FaultFreePass, Reachable, Recordable, Inv;
    var cls := SmallClass(1, "v1beta1");
    var c0 := ClusterWith(cls);
    p := WidgetShape("v1beta1", "app", "small");
    StartsUntouched(cls);
    NothingForeign(p.ref);
    OnePrepared(cls, map[], p);
    assert Recordable(p.ref) by { WidgetRecordable(p.ref); }
    InitInv(SampleSetup, Config(c0, Idle));
    assert CanSucceed(SampleSetup, c0, "web", cls, [p]) by { FirstCanSucceed(c0, cls, p); }
    SuccessfulPass(SampleSetup, c0, "web", cls, [p]);
    InitReachable(SampleSetup, Config(c0, Idle));
    ReachesPass(SampleSetup, c0, "web");
    c := FaultFreePass(SampleSetup, c0, "web");
    assert c == SuccessState(c0, "web", cls, [p]);
    FirstState(c0, cls, p);
  }

  lemma WidgetRecordable(r: ResourceRef)
    requires r.kind == "Widget" && r.namespace == "web" && r.name == "app" && ObjectOf(r).Some?
    ensures Recordable(r)
  {
    hide ObjectOf;
  }

  lemma FirstCanSucceed(c: Cluster, cls: NamespaceClass, p: Prepared)
    requires Serves(c, "web", cls) && c.bindings == map[] && |cls.resources| == 1
    requires PreparedAll(SampleSetup, c.namespaces["web"].meta, cls, c.store.objects, 1) == Success([p])
    requires Recordable(p.ref)
    ensures CanSucceed(SampleSetup, c, "web", cls, [p])
  {
    hide PreparedAll, Recordable, Blocks;
  }

  lemma FirstState(c: Cluster, cls: NamespaceClass, p: Prepared)
    requires "web" in c.namespaces && c.namespaces["web"].meta.uid == "uid" && c.bindings == map[]
    requires c.store == Store(map[], map[], {}) && ObjectOf(p.ref) == Some(WidgetId)
    ensures var c' := SuccessState(c, "web", cls, [p]);
            && PreviousInventory(c', "web") == [p.ref]
            && c'.store.objects == map[WidgetId := p.content]
            && c'.namespaces["web"].meta == c.namespaces["web"].meta
            && c'.namespaces["web"].deleting == c.namespaces["web"].deleting && c'.classes == c.classes
  {
    hide ObjectOf, Key, Keys;
    assert Refs([p]) == [p.ref];
    assert Sorted([p.ref]) == [p.ref] by {
      assert [p.ref][1..] == [];
      assert InsertAll([p.ref], []) == [p.ref];
    }
    assert [p][..0] == [];
    assert ApplyAll(c.store, "uid", [p]).objects == map[WidgetId := p.content] by {
      assert ApplyAll(c.store, "uid", []) == c.store;
    }
    assert PreviousInventory(c, "web") == [] && StaleObjects([], Sorted(Refs([p]))) == {};
  }

  /** The class moves the widget to another version, and one pass later the widget is gone while the status
      reports success with an inventory that names it. */
  lemma SampleVersionBump() returns (c: Cluster)
    ensures Reachable(SampleSetup, Config(c, Idle))
    ensures WidgetId !in c.store.objects
    ensures "web" in c.bindings && ReportsReady(c.bindings["web"])
    ensures ResourceRef("v1", "Widget", "web", "app") in c.bindings["web"].status.inventory
  {
    hide Shaped, Foreign, PreparedAll, FaultFreePass, Reachable, Recordable, Inv, Step, ReportsReady;
    hide ObjectOf, Key, Keys;
    var c1, p := AfterFirstPass();
    var cls := SmallClass(2, "v1");
    var c2 := Do(c1, PutClass(cls));
    assert Step(SampleSetup, Config(c1, Idle), Config(c2, Idle)) by { PutIsStep(c1, cls); }
    ReachesStep(SampleSetup, Config(c1, Idle), Config(c2, Idle));
    ReachableInv(SampleSetup, Config(c2, Idle));
    var q := WidgetShape("v1", "app", "small");
    assert ObjectOf(p.ref) == ObjectOf(q.ref) && Key(p.ref) != Key(q.ref) by { VersionsShareObject(); }
    assert !Foreign(c2.store.objects, q.ref, "uid") by { OwnedIsNotForeign(c2.store.objects, q.ref, p.content); }
    OnePrepared(cls, c2.store.objects, q);
    assert Recordable(q.ref) by { WidgetRecordable(q.ref); }
    BumpCanSucceed(c2, cls, p, q);
    assert Key(p.ref) !in Keys(Refs([q])) by { OneKey(q); }
    VersionBumpDeletes(SampleSetup, c2, "web", cls, [q], p.ref, q);
    ReachesPass(SampleSetup, c2, "web");
    c := FaultFreePass(SampleSetup, c2, "web");
  }

  lemma PutIsStep(c: Cluster, cls: NamespaceClass)
    requires cls.name in c.classes && cls.generation == c.classes[cls.name].generation + 1
    ensures Step(SampleSetup, Config(c, Idle), Config(Do(c, PutClass(cls)), Idle))
  {
    var s := Config(c, Idle);
    assert Machine.Allowed(s, PutClass(cls)) && s.(c := Do(s.c, PutClass(cls))) == Config(Do(c, PutClass(cls)), Idle);
  }

  lemma OwnedIsNotForeign(objects: map<ObjectId, U.Fields>, ref: ResourceRef, content: U.Fields)
    requires objects == map[WidgetId := content] && U.IsManagedBy(content, "uid")
    ensures !Foreign(objects, ref, "uid")
  {
    hide ObjectOf, U.IsManagedBy;
  }

  lemma OneKey(q: Prepared)
    ensures Keys(Refs([q])) == {Key(q.ref)}
  {
    hide Key;
    assert Refs([q]) == [q.ref];
  }

  lemma BumpCanSucceed(c: Cluster, cls: NamespaceClass, p: Prepared, q: Prepared)
    requires Serves(c, "web", cls) && |cls.resources| == 1 && c.namespaces["web"].meta.uid == "uid"
    requires PreparedAll(SampleSetup, c.namespaces["web"].meta, cls, c.store.objects, 1) == Success([q])
    requires Recordable(q.ref) && PreviousInventory(c, "web") == [p.ref] && ObjectOf(p.ref) == Some(WidgetId)
    requires c.store.objects == map[WidgetId := p.content] && U.IsManagedBy(p.content, "uid")
    ensures CanSucceed(SampleSetup, c, "web", cls, [q])
  {
    hide PreparedAll, Recordable, ObjectOf, U.IsManagedBy, Key, Keys, Sorted;
  }

  // ----- At rest with a failure -----

  /** The class with a second widget, under a name that the server refuses. */
  const PartlyRefused :=
    NamespaceClass("small", 1, [Readable(Widget("v1", "app")), Readable(Widget("v1", "app/2"))])

  lemma TwoPrepared(objects: map<ObjectId, U.Fields>, p: Prepared, q: Prepared)
    requires Shaped(SampleSetup, MetaFor("small"), "small", PartlyRefused.resources[0]) == Success(p)
    requires Shaped(SampleSetup, MetaFor("small"), "small", PartlyRefused.resources[1]) == Success(q)
    requires !Foreign(objects, p.ref, "uid") && !Foreign(objects, q.ref, "uid") && Key(p.ref) != Key(q.ref)
    ensures PreparedAll(SampleSetup, MetaFor("small"), PartlyRefused, objects, 2) == Success([p, q])
  {
    hide Shaped, Foreign, Key;
    var cls := PartlyRefused;
    assert PreparedOne(SampleSetup, MetaFor("small"), "small", cls.resources[0], objects, false) == Success(p);
    assert PreparedOne(SampleSetup, MetaFor("small"), "small", cls.resources[1], objects, false) == Success(q);
    assert PreparedPrefix(SampleSetup, MetaFor("small"), cls, objects, 2, 0) == Success([]);
    assert [] + [p] == [p];
    assert PreparedPrefix(SampleSetup, MetaFor("small"), cls, objects, 2, 1) == Success([p]);
    OneKey(p);
    assert [p] + [q] == [p, q];
  }

  /** The first widget is applied and recorded, the second is refused. */
  lemma RefusedPass(c: Cluster, p: Prepared, q: Prepared)
    requires Inv(SampleSetup, Config(c, Idle)) && Serves(c, "web", PartlyRefused)
    requires c.namespaces["web"].meta == MetaFor("small")
    requires PreparedAll(SampleSetup, MetaFor("small"), PartlyRefused, c.store.objects, 2) == Success([p, q])
    requires Recordable(p.ref) && !Recordable(q.ref) && ObjectOf(p.ref) == Some(WidgetId)
    requires c.store.objects == map[] || c.store.objects == map[WidgetId := p.content]
    ensures var c' := FaultFreePass(SampleSetup, c, "web");
            && Serves(c', "web", PartlyRefused) && c'.namespaces["web"].meta == MetaFor("small")
            && c'.store.objects == map[WidgetId := p.content]
            && "web" in c'.bindings
            && c'.bindings["web"].status.condition
               == Some(Condition(false, ApplyFailed, c'.bindings["web"].generation))
            && p.ref in c'.bindings["web"].status.inventory
  {
    hide Inv, PreparedAll, FaultFreePass, ObjectOf, Recordable, Merge, Sorted, BlockedAt, Key, Keys;
    var resources := [p, q];
    PassOutcome(SampleSetup, c, "web", PartlyRefused);
    assert RefusedAt(resources, 0) == 1;
    assert resources[..1] == [p] && Refs([p]) == [p.ref];
    assert ApplyAll(c.store, "uid", [p]).objects == map[WidgetId := p.content] by {
      assert [p][..0] == [];
      assert ApplyAll(c.store, "uid", []) == c.store;
    }
    assert p.ref in Merge(PreviousInventory(c, "web"), [p.ref]) by {
      MergeKeepsLast(PreviousInventory(c, "web"), p.ref);
    }
  }

  lemma MergeKeepsLast(refs: seq<ResourceRef>, r: ResourceRef)
    ensures r in Merge(refs, [r])
  {
    hide Key, Merge;
    MergeIsUnion(refs, [r]);
    ByKeySingle(r);
    ByKeyMembers(Merge(refs, [r]));
    assert ByKey(Merge(refs, [r]))[Key(r)] == r;
  }

  lemma PartsShaped() returns (p: Prepared, q: Prepared)
    ensures Shaped(SampleSetup, MetaFor("small"), "small", PartlyRefused.resources[0]) == Success(p)
    ensures Shaped(SampleSetup, MetaFor("small"), "small", PartlyRefused.resources[1]) == Success(q)
    ensures Key(p.ref) != Key(q.ref) && Recordable(p.ref) && !Recordable(q.ref)
    ensures ObjectOf(p.ref) == Some(WidgetId) && ObjectOf(q.ref).Some? && ObjectOf(q.ref) != Some(WidgetId)
    ensures U.IsManagedBy(p.content, "uid") && p.ref == ResourceRef("v1", "Widget", "web", "app")
  {
    hide Shaped, ObjectOf, U.IsManagedBy;
    p := WidgetShape("v1", "app", "small");
    q := WidgetShape("v1", "app/2", "small");
    assert |Key(p.ref)| != |Key(q.ref)|;
    assert q.ref.name[3] == '/';
    assert "app/2"[3] != "app"[2] && |"app"| != |"app/2"|;
  }

  /** The first template is applied, the second refused, the outcome recorded, and nothing is queued, under way
      or running any more: with the periodic requeue off, the partial apply is not tried again until something
      changes. */
  lemma SampleRestsPartlyApplied() returns (w: World)
    ensures WorldReachable(SampleSetup, w)
    ensures w.s.phase.Idle? && w.queue == {} && w.events == {}
    ensures "web" in w.s.c.namespaces && Labelled(w.s.c.namespaces["web"]) && "web" in w.s.c.bindings
    ensures var b := w.s.c.bindings["web"];
            && b.status.condition == Some(Condition(false, ApplyFailed, b.generation))
            && ResourceRef("v1", "Widget", "web", "app") in b.status.inventory
            && WidgetId in w.s.c.store.objects
  {
    hide Shaped, Foreign, PreparedAll, FaultFreePass, WorldReachable, Recordable, Inv, ObjectOf, Key, Init;
    var c0 := ClusterWith(PartlyRefused);
    StartsUntouched(PartlyRefused);
    InitInv(SampleSetup, Config(c0, Idle));
    var p, q := PartsShaped();
    NothingForeign(p.ref);
    NothingForeign(q.ref);
    TwoPrepared(map[], p, q);
    RefusedPass(c0, p, q);
    var c1 := FaultFreePass(SampleSetup, c0, "web");
    PassEndsInInv(SampleSetup, c0, "web");
    OwnedIsNotForeign(c1.store.objects, p.ref, p.content);
    OwnedIsNotForeign(c1.store.objects, q.ref, p.content);
    TwoPrepared(c1.store.objects, p, q);
    RefusedPass(c1, p, q);
    var start := World(Config(c0, Idle), {"web"}, {}, map[]);
    StartsWorld(start);
    w := ComesToRest(SampleSetup, start, "web");
  }

  lemma StartsWorld(w: World)
    requires WorldInit(w)
    ensures WorldReachable(SampleSetup, w)
  {
    assert IsWorldRun(SampleSetup, [w]) && [w][|[w]| - 1] == w;
  }
}
