/** Untyped Kubernetes objects: JSON trees, the metadata accessors, and template rendering in a tree. */
module Unstructured {
  import opened Wrappers
  import opened Template

  datatype Json =
    | Null
    | Bool(b: bool)
    | Number(n: int)
    | Str(s: string)
    | Arr(items: seq<Json>)
    | Obj(fields: Fields)

  type Fields = map<string, Json>

  // ----- Accessors -----

  function StringField(fields: Fields, name: string): string {
    if name in fields && fields[name].Str? then fields[name].s else ""
  }

  predicate IsStringMap(v: Json) {
    v.Obj? && forall k | k in v.fields :: v.fields[k].Str?
  }

  /** NestedStringMap with its error dropped: one value that is not a string loses the whole map. */
  function StringMapField(fields: Fields, name: string): map<string, string> {
    if name in fields && IsStringMap(fields[name]) then
      var entries := fields[name].fields;
      map k | k in entries :: entries[k].s
    else
      map[]
  }

  function Lookup(m: map<string, string>, key: string): string {
    if key in m then m[key] else ""
  }

  function Metadata(o: Fields): Fields {
    if "metadata" in o && o["metadata"].Obj? then o["metadata"].fields else map[]
  }

  function ApiVersion(o: Fields): string { StringField(o, "apiVersion") }
  function Kind(o: Fields): string { StringField(o, "kind") }
  function Name(o: Fields): string { StringField(Metadata(o), "name") }
  function Namespace(o: Fields): string { StringField(Metadata(o), "namespace") }
  function Labels(o: Fields): map<string, string> { StringMapField(Metadata(o), "labels") }
  function Annotations(o: Fields): map<string, string> { StringMapField(Metadata(o), "annotations") }

  /** Setting a metadata field; without effect when metadata is there but is not an object. */
  function SetMetadata(o: Fields, name: string, value: Json): Fields {
    if "metadata" in o && !o["metadata"].Obj? then o
    else o["metadata" := Obj(Metadata(o)[name := value])]
  }

  function RemoveMetadata(o: Fields, name: string): Fields {
    if "metadata" in o && o["metadata"].Obj? then o["metadata" := Obj(Metadata(o) - {name})] else o
  }

  function SetNamespace(o: Fields, namespace: string): Fields {
    if namespace == "" then RemoveMetadata(o, "namespace") else SetMetadata(o, "namespace", Str(namespace))
  }

  function StringMap(m: map<string, string>): Json {
    Obj(map k | k in m :: Str(m[k]))
  }

  // ----- Ownership markers -----

  const ManagedLabel := "namespaceclass.akuity.io/managed"
  const ClassLabel := "namespaceclass.akuity.io/class"
  const NamespaceLabel := "namespaceclass.akuity.io/namespace"
  const OwnerAnnotation := "namespaceclass.akuity.io/owner-namespace-uid"

  predicate IsManagedBy(o: Fields, uid: string) {
    Lookup(Labels(o), ManagedLabel) == "true" && Lookup(Annotations(o), OwnerAnnotation) == uid
  }

  function OwnerLabels(namespace: string, className: string): map<string, string> {
    map[ManagedLabel := "true", ClassLabel := className, NamespaceLabel := namespace]
  }

  function AddManagedMetadata(o: Fields, namespace: string, uid: string, className: string): Fields {
    var labeled := SetMetadata(o, "labels", StringMap(Labels(o) + OwnerLabels(namespace, className)));
    SetMetadata(labeled, "annotations", StringMap(Annotations(labeled)[OwnerAnnotation := uid]))
  }

  /** What the controller sends for a rendered template: namespace by scope, markers, no server fields. */
  function Managed(o: Fields, namespace: string, owner: string, uid: string, className: string): Fields {
    var marked := AddManagedMetadata(SetNamespace(o, namespace), owner, uid, className);
    RemoveMetadata(RemoveMetadata(marked, "resourceVersion"), "managedFields")
  }

  lemma SetMetadataReads(o: Fields, name: string, value: Json)
    requires Metadata(o) != map[]
    ensures Metadata(SetMetadata(o, name, value)) == Metadata(o)[name := value]
    ensures forall k | k != "metadata" :: k in SetMetadata(o, name, value) <==> k in o
    ensures forall k | k != "metadata" && k in o :: SetMetadata(o, name, value)[k] == o[k]
  {
  }

  lemma StringMapReads(fields: Fields, name: string, m: map<string, string>)
    requires name in fields && fields[name] == StringMap(m)
    ensures StringMapField(fields, name) == m
  {
  }

  /** The object sent is always marked as owned by the namespace, whatever labels the template carried;
      it keeps its identity, and the markers are added to the labels and annotations that can be read. */
  lemma ManagedIsMarked(o: Fields, namespace: string, owner: string, uid: string, className: string)
    requires Name(o) != ""
    ensures var sent := Managed(o, namespace, owner, uid, className);
            && IsManagedBy(sent, uid)
            && ApiVersion(sent) == ApiVersion(o) && Kind(sent) == Kind(o) && Name(sent) == Name(o)
            && Namespace(sent) == namespace
            && Labels(sent) == Labels(o) + OwnerLabels(owner, className)
            && Annotations(sent) == Annotations(o)[OwnerAnnotation := uid]
  {
    hide SetNamespace, AddManagedMetadata, RemoveMetadata, OwnerLabels, StringMapField, Metadata, StringField;
    var placed := SetNamespace(o, namespace);
    NamespaceIsSet(o, namespace);
    var marked := AddManagedMetadata(placed, owner, uid, className);
    MarkersAreAdded(placed, owner, uid, className);
    RemovalReads(marked, "resourceVersion");
    RemovalReads(RemoveMetadata(marked, "resourceVersion"), "managedFields");
    OwnerLabelsMark(Labels(marked), Labels(o), owner, className);
  }

  ghost predicate SameIdentity(o: Fields, o': Fields) {
    ApiVersion(o') == ApiVersion(o) && Kind(o') == Kind(o) && Name(o') == Name(o)
  }

  lemma NamespaceIsSet(o: Fields, namespace: string)
    requires Name(o) != ""
    ensures var o' := SetNamespace(o, namespace);
            && SameIdentity(o, o') && Namespace(o') == namespace
            && Labels(o') == Labels(o) && Annotations(o') == Annotations(o)
  {
    hide StringMapField;
    var o' := SetNamespace(o, namespace);
    assert "name" in Metadata(o);
    OtherFields(Metadata(o), Metadata(o'), "labels");
    OtherFields(Metadata(o), Metadata(o'), "annotations");
  }

  lemma MarkersAreAdded(o: Fields, owner: string, uid: string, className: string)
    requires Name(o) != ""
    ensures var o' := AddManagedMetadata(o, owner, uid, className);
            && SameIdentity(o, o') && Namespace(o') == Namespace(o)
            && Labels(o') == Labels(o) + OwnerLabels(owner, className)
            && Annotations(o') == Annotations(o)[OwnerAnnotation := uid]
  {
    hide StringMap, StringMapField, OwnerLabels, SetMetadata;
    var labels := Labels(o) + OwnerLabels(owner, className);
    var labeled := SetMetadata(o, "labels", StringMap(labels));
    assert "name" in Metadata(o);
    SetMetadataReads(o, "labels", StringMap(labels));
    StringMapReads(Metadata(labeled), "labels", labels);
    OtherFields(Metadata(o), Metadata(labeled), "annotations");
    var annotations := Annotations(labeled)[OwnerAnnotation := uid];
    var o' := SetMetadata(labeled, "annotations", StringMap(annotations));
    SetMetadataReads(labeled, "annotations", StringMap(annotations));
    StringMapReads(Metadata(o'), "annotations", annotations);
    OtherFields(Metadata(labeled), Metadata(o'), "labels");
  }

  lemma RemovalReads(o: Fields, name: string)
    requires name == "resourceVersion" || name == "managedFields"
    ensures var o' := RemoveMetadata(o, name);
            && SameIdentity(o, o') && Namespace(o') == Namespace(o)
            && Labels(o') == Labels(o) && Annotations(o') == Annotations(o)
  {
    hide StringMapField;
    OtherFields(Metadata(o), Metadata(RemoveMetadata(o, name)), "labels");
    OtherFields(Metadata(o), Metadata(RemoveMetadata(o, name)), "annotations");
  }

  lemma OtherFields(before: Fields, after: Fields, name: string)
    requires name in before <==> name in after
    requires name in before ==> before[name] == after[name]
    ensures StringMapField(before, name) == StringMapField(after, name)
  {
  }

  lemma OwnerLabelsMark(labels: map<string, string>, before: map<string, string>, owner: string, className: string)
    requires labels == before + OwnerLabels(owner, className)
    ensures Lookup(labels, ManagedLabel) == "true"
  {
    assert |ManagedLabel| != |ClassLabel| && |ManagedLabel| != |NamespaceLabel|;
  }

  // ----- The object sent, spelled out -----

  /** A label or an annotation as it is written in an object: "" unless every entry of its section is a
      string and it is among them. */
  ghost function Text(o: Fields, section: string, key: string): string {
    if "metadata" in o && o["metadata"].Obj? && section in o["metadata"].fields then
      match o["metadata"].fields[section]
      case Obj(entries) => if key in entries && forall k | k in entries :: entries[k].Str? then entries[key].s else ""
      case _ => ""
    else
      ""
  }

  lemma TextReads(o: Fields, section: string, key: string)
    ensures Text(o, section, key) == Lookup(StringMapField(Metadata(o), section), key)
  {
  }

  /** An object belongs to a namespace exactly when it is labelled as managed and annotated with the UID of
      that namespace. */
  lemma OwnedExactly(o: Fields, uid: string)
    ensures IsManagedBy(o, uid) <==>
            && Text(o, "labels", "namespaceclass.akuity.io/managed") == "true"
            && Text(o, "annotations", "namespaceclass.akuity.io/owner-namespace-uid") == uid
  {
    hide StringMapField, Text;
    TextReads(o, "labels", "namespaceclass.akuity.io/managed");
    TextReads(o, "annotations", "namespaceclass.akuity.io/owner-namespace-uid");
  }

  /** Both objects have metadata, and they differ at most in the named fields of it. */
  ghost predicate SameBut(o: Fields, o': Fields, names: set<string>) {
    && (forall k | k != "metadata" :: k in o' <==> k in o)
    && (forall k | k != "metadata" && k in o :: o'[k] == o[k])
    && "metadata" in o && o["metadata"].Obj?
    && "metadata" in o' && o'["metadata"].Obj?
    && var m, m' := o["metadata"].fields, o'["metadata"].fields;
       && (forall k | k !in names :: k in m' <==> k in m)
       && (forall k | k !in names && k in m :: m'[k] == m[k])
  }

  lemma MarkersKeepBody(o: Fields, owner: string, uid: string, className: string)
    requires "metadata" in o && o["metadata"].Obj?
    ensures SameBut(o, AddManagedMetadata(o, owner, uid, className), {"labels", "annotations"})
  {
    hide StringMapField, StringMap, OwnerLabels;
    assert SameBut(o, SetMetadata(o, "labels", StringMap(Labels(o) + OwnerLabels(owner, className))), {"labels"});
  }

  lemma RemovalKeepsBody(o: Fields, name: string)
    requires "metadata" in o && o["metadata"].Obj?
    ensures SameBut(o, RemoveMetadata(o, name), {name})
    ensures name !in RemoveMetadata(o, name)["metadata"].fields
  {
  }

  lemma NamespaceKeepsBody(o: Fields, namespace: string)
    requires "metadata" in o && o["metadata"].Obj?
    ensures var placed := SetNamespace(o, namespace);
            && SameBut(o, placed, {"namespace"})
            && (if namespace == "" then "namespace" !in placed["metadata"].fields
                else "namespace" in placed["metadata"].fields
                     && placed["metadata"].fields["namespace"] == Str(namespace))
  {
  }

  lemma SameButChains(a: Fields, b: Fields, c: Fields, names: set<string>, more: set<string>)
    requires SameBut(a, b, names) && SameBut(b, c, more)
    ensures SameBut(a, c, names + more)
  {
  }

  /** Only the metadata is edited, and in it only what the controller owns: the template's body and every
      other metadata field are sent as they are, and the server's own two fields are not sent. */
  lemma ManagedKeepsBody(o: Fields, namespace: string, owner: string, uid: string, className: string)
    requires "metadata" in o && o["metadata"].Obj?
    ensures var sent := Managed(o, namespace, owner, uid, className);
            && SameBut(o, sent, {"labels", "annotations", "namespace", "resourceVersion", "managedFields"})
            && var m' := sent["metadata"].fields;
               && "resourceVersion" !in m' && "managedFields" !in m'
               && (if namespace == "" then "namespace" !in m'
                   else "namespace" in m' && m'["namespace"] == Str(namespace))
  {
    hide SetNamespace, AddManagedMetadata, RemoveMetadata;
    var placed := SetNamespace(o, namespace);
    NamespaceKeepsBody(o, namespace);
    var marked := AddManagedMetadata(placed, owner, uid, className);
    MarkersKeepBody(placed, owner, uid, className);
    var cleaned := RemoveMetadata(marked, "resourceVersion");
    RemovalKeepsBody(marked, "resourceVersion");
    RemovalKeepsBody(cleaned, "managedFields");
    var sent := Managed(o, namespace, owner, uid, className);
    assert SameBut(o, sent, {"namespace"} + {"labels", "annotations"} + {"resourceVersion"} + {"managedFields"}) by {
      hide SameBut;
      SameButChains(o, placed, marked, {"namespace"}, {"labels", "annotations"});
      SameButChains(o, marked, cleaned, {"namespace"} + {"labels", "annotations"}, {"resourceVersion"});
      SameButChains(o, cleaned, sent, {"namespace"} + {"labels", "annotations"} + {"resourceVersion"},
                    {"managedFields"});
    }
  }

  /** The markers of the object sent, key by key; all its other labels and annotations read as in the
      template. */
  lemma ManagedMarkers(o: Fields, namespace: string, owner: string, uid: string, className: string)
    requires Name(o) != ""
    ensures var sent := Managed(o, namespace, owner, uid, className);
            && Text(sent, "labels", "namespaceclass.akuity.io/managed") == "true"
            && Text(sent, "labels", "namespaceclass.akuity.io/class") == className
            && Text(sent, "labels", "namespaceclass.akuity.io/namespace") == owner
            && Text(sent, "annotations", "namespaceclass.akuity.io/owner-namespace-uid") == uid
            && (forall k | k !in ["namespaceclass.akuity.io/managed", "namespaceclass.akuity.io/class",
                                  "namespaceclass.akuity.io/namespace"] ::
                  Text(sent, "labels", k) == Text(o, "labels", k))
            && (forall k | k != "namespaceclass.akuity.io/owner-namespace-uid" ::
                  Text(sent, "annotations", k) == Text(o, "annotations", k))
  {
    hide Managed, StringMapField, Metadata, IsManagedBy, Text;
    var sent := Managed(o, namespace, owner, uid, className);
    ManagedIsMarked(o, namespace, owner, uid, className);
    assert |ManagedLabel| == 32 && |ClassLabel| == 30 && |NamespaceLabel| == 34;
    forall k
      ensures Text(sent, "labels", k) == Lookup(Labels(sent), k) && Text(o, "labels", k) == Lookup(Labels(o), k)
      ensures Text(sent, "annotations", k) == Lookup(Annotations(sent), k)
      ensures Text(o, "annotations", k) == Lookup(Annotations(o), k)
    {
      TextReads(sent, "labels", k);
      TextReads(o, "labels", k);
      TextReads(sent, "annotations", k);
      TextReads(o, "annotations", k);
    }
  }

  // ----- What becomes of the template's own labels -----

  /** The entries of a map in the metadata as they are written, strings or not. */
  function Entries(o: Fields, name: string): Fields {
    if name in Metadata(o) && Metadata(o)[name].Obj? then Metadata(o)[name].fields else map[]
  }

  /** Every entry of the template that is not overwritten is in the object sent. */
  ghost predicate Survive(before: Fields, after: Fields, overwritten: set<string>) {
    forall k | k in before && k !in overwritten :: k in after && after[k] == before[k]
  }

  lemma SurviveExactly(o: Fields, sent: Fields, name: string, added: map<string, string>)
    requires StringMapField(Metadata(sent), name) == StringMapField(Metadata(o), name) + added && added != map[]
    ensures Survive(Entries(o, name), Entries(sent, name), added.Keys)
            <==> IsStringMap(Obj(Entries(o, name))) || Entries(o, name).Keys <= added.Keys
  {
    hide Metadata;
    var before, after := Entries(o, name), Entries(sent, name);
    var read := StringMapField(Metadata(o), name) + added;
    var a :| a in added;
    assert a in StringMapField(Metadata(sent), name);
    assert after.Keys == read.Keys && forall k | k in after :: after[k] == Str(read[k]);
    if IsStringMap(Obj(before)) {
      forall k | k in before && k !in added
        ensures k in after && after[k] == before[k]
      {
        assert k in StringMapField(Metadata(o), name);
      }
    } else if !(before.Keys <= added.Keys) {
      var k :| k in before && k !in added;
      assert k !in read;
    }
  }

  /** The template's own labels and annotations reach the object sent if and only if all of them are
      strings, or there are none besides the markers: one that is not a string loses all others of its
      kind. */
  lemma OwnLabelsSurviveExactly(o: Fields, namespace: string, owner: string, uid: string, className: string)
    requires Name(o) != ""
    ensures var sent, markers := Managed(o, namespace, owner, uid, className), OwnerLabels(owner, className).Keys;
            && (Survive(Entries(o, "labels"), Entries(sent, "labels"), markers)
                <==> IsStringMap(Obj(Entries(o, "labels"))) || Entries(o, "labels").Keys <= markers)
            && (Survive(Entries(o, "annotations"), Entries(sent, "annotations"), {OwnerAnnotation})
                <==> IsStringMap(Obj(Entries(o, "annotations"))) || Entries(o, "annotations").Keys <= {OwnerAnnotation})
  {
    hide Managed, Entries, Survive, StringMapField, Metadata, IsManagedBy;
    var sent := Managed(o, namespace, owner, uid, className);
    ManagedIsMarked(o, namespace, owner, uid, className);
    assert ManagedLabel in OwnerLabels(owner, className);
    SurviveExactly(o, sent, "labels", OwnerLabels(owner, className));
    var added := map[OwnerAnnotation := uid];
    assert added.Keys == {OwnerAnnotation};
    assert Annotations(o)[OwnerAnnotation := uid] == Annotations(o) + added;
    assert OwnerAnnotation in added;
    SurviveExactly(o, sent, "annotations", added);
  }

  /** A template with the labels tier: web and port: 80 is applied without either. */
  lemma NumberLosesLabels(namespace: string, owner: string, uid: string, className: string)
    ensures var labels: Fields := map["tier" := Str("web"), "port" := Number(80)];
            var metadata: Fields := map["name" := Str("app"), "labels" := Obj(labels)];
            var sent := Managed(map["metadata" := Obj(metadata)], namespace, owner, uid, className);
            "tier" !in Labels(sent) && "port" !in Labels(sent)
  {
    hide Managed, IsManagedBy;
    var labels: Fields := map["tier" := Str("web"), "port" := Number(80)];
    var metadata: Fields := map["name" := Str("app"), "labels" := Obj(labels)];
    var o: Fields := map["metadata" := Obj(metadata)];
    ManagedIsMarked(o, namespace, owner, uid, className);
    assert !labels["port"].Str?;
    assert Labels(o) == map[];
    assert |ManagedLabel| != |"tier"| && |ClassLabel| != |"tier"| && |NamespaceLabel| != |"tier"|;
  }

  // ----- Rendering -----

  /** The tree with every string leaf rendered, if all of them can be. */
  function RenderedTree(v: Json, values: Values): Option<Json> {
    match v
    case Str(s) =>
      (match Rendered(s, values)
       case Success(text) => Some(Str(text))
       case Failure(_) => None)
    case Arr(items) =>
      if forall i | 0 <= i < |items| :: RenderedTree(items[i], values).Some? then
        Some(Arr(seq(|items|, i requires 0 <= i < |items| && RenderedTree(items[i], values).Some?
                              => RenderedTree(items[i], values).value)))
      else
        None
    case Obj(fields) =>
      if forall k | k in fields :: RenderedTree(fields[k], values).Some? then
        Some(Obj(map k | k in fields :: RenderedTree(fields[k], values).value))
      else
        None
    case _ => Some(v)
  }

  /** renderTemplateValue, with the bodies of its two loops in methods of their own. */
  method RenderTemplateValue(v: Json, values: Values) returns (r: Option<Json>)
    ensures r == RenderedTree(v, values)
    decreases v, 1
  {
    hide Rendered;
    match v {
      case Str(s) =>
        var rendered := RenderString(s, values);
        r := if rendered.Success? then Some(Str(rendered.value)) else None;
      case Arr(_) => r := RenderItems(v, values);
      case Obj(_) => r := RenderFields(v, values);
      case Null => r := Some(v);
      case Bool(_) => r := Some(v);
      case Number(_) => r := Some(v);
    }
  }

  method RenderItems(v: Json, values: Values) returns (r: Option<Json>)
    requires v.Arr?
    ensures r == RenderedTree(v, values)
    decreases v, 0
  {
    hide Rendered;
    var items := v.items;
    var rendered: seq<Json> := [];
    var i := 0;
    while i < |items|
      invariant 0 <= i == |rendered| <= |items|
      invariant forall j | 0 <= j < i :: RenderedTree(items[j], values) == Some(rendered[j])
    {
      var next := RenderTemplateValue(items[i], values);
      if next.None? {
        return None;
      }
      rendered := rendered + [next.value];
      i := i + 1;
    }
    ItemsRendered(items, values, rendered);
    r := Some(Arr(rendered));
  }

  lemma ItemsRendered(items: seq<Json>, values: Values, rendered: seq<Json>)
    requires |rendered| == |items|
    requires forall j | 0 <= j < |items| :: RenderedTree(items[j], values) == Some(rendered[j])
    ensures RenderedTree(Arr(items), values) == Some(Arr(rendered))
  {
    hide Rendered;
    assert RenderedTree(Arr(items), values).Some?;
    assert RenderedTree(Arr(items), values).value.items == rendered;
  }

  /** The order in which the entries are visited is left open, as map iteration leaves it. */
  method RenderFields(v: Json, values: Values) returns (r: Option<Json>)
    requires v.Obj?
    ensures r == RenderedTree(v, values)
    decreases v, 0
  {
    hide RenderedTree;
    var fields := v.fields;
    var rendered: Fields := map[];
    var unvisited := fields.Keys;
    while unvisited != {}
      invariant unvisited <= fields.Keys
      invariant rendered.Keys == fields.Keys - unvisited
      invariant forall k | k in rendered :: RenderedTree(fields[k], values) == Some(rendered[k])
      decreases |unvisited|
    {
      var key :| key in unvisited;
      var next := RenderTemplateValue(fields[key], values);
      if next.None? {
        FieldUnresolved(fields, values, key);
        return None;
      }
      rendered := rendered[key := next.value];
      unvisited := unvisited - {key};
    }
    FieldsRendered(fields, values, rendered);
    r := Some(Obj(rendered));
  }

  lemma FieldsRendered(fields: Fields, values: Values, rendered: Fields)
    requires rendered.Keys == fields.Keys
    requires forall k | k in fields :: RenderedTree(fields[k], values) == Some(rendered[k])
    ensures RenderedTree(Obj(fields), values) == Some(Obj(rendered))
  {
    hide Rendered;
    assert RenderedTree(Obj(fields), values).Some?;
    assert RenderedTree(Obj(fields), values).value.fields == rendered;
  }

  lemma FieldUnresolved(fields: Fields, values: Values, k: string)
    requires k in fields && RenderedTree(fields[k], values).None?
    ensures RenderedTree(Obj(fields), values).None?
  {
  }

  /** A way down a tree. */
  datatype Step = Field(name: string) | Index(i: nat)

  function At(v: Json, path: seq<Step>): Option<Json> {
    if path == [] then Some(v) else
      match (v, path[0])
      case (Obj(fields), Field(name)) => if name in fields then At(fields[name], path[1..]) else None
      case (Arr(items), Index(i)) => if i < |items| then At(items[i], path[1..]) else None
      case _ => None
  }

  /** v and w are alike at their roots: the same shape, and a string leaf is replaced by its rendering. */
  ghost predicate RootRendered(v: Json, w: Json, values: Values) {
    match v
    case Str(s) => w.Str? && Rendered(s, values) == Success(w.s)
    case Arr(items) => w.Arr? && |w.items| == |items|
    case Obj(fields) => w.Obj? && w.fields.Keys == fields.Keys
    case _ => w == v
  }

  /** Rendering keeps the shape, the keys and the other leaves of the tree and renders every string leaf:
      at every path the two trees both end, or are alike. */
  lemma {:induction false} RenderingPreservesShape(v: Json, values: Values, path: seq<Step>)
    requires RenderedTree(v, values).Some?
    ensures var w := RenderedTree(v, values).value;
            && (At(v, path).Some? <==> At(w, path).Some?)
            && (At(v, path).Some? ==> RootRendered(At(v, path).value, At(w, path).value, values))
    decreases path
  {
    hide Rendered;
    if path != [] {
      match (v, path[0]) {
        case (Obj(fields), Field(name)) =>
          if name in fields {
            RenderingPreservesShape(fields[name], values, path[1..]);
          }
        case (Arr(items), Index(i)) =>
          if i < |items| {
            RenderingPreservesShape(items[i], values, path[1..]);
          }
        case _ =>
      }
    }
  }

  /** Rendering fails exactly when some string leaf has a token without a value. */
  lemma RenderingFailsExactly(v: Json, values: Values)
    ensures RenderedTree(v, values).None? <==>
            exists path, s :: At(v, path) == Some(Str(s)) && Rendered(s, values).Failure?
  {
    hide Rendered;
    if RenderedTree(v, values).None? {
      var path, s := UnresolvedLeaf(v, values);
    } else {
      forall path, s | At(v, path) == Some(Str(s))
        ensures Rendered(s, values).Success?
      {
        RenderingPreservesShape(v, values, path);
      }
    }
  }

  lemma {:induction false} UnresolvedLeaf(v: Json, values: Values) returns (path: seq<Step>, s: string)
    requires RenderedTree(v, values).None?
    ensures At(v, path) == Some(Str(s)) && Rendered(s, values).Failure?
  {
    hide Rendered;
    match v {
      case Str(text) =>
        path, s := [], text;
      case Arr(items) =>
        var i :| 0 <= i < |items| && RenderedTree(items[i], values).None?;
        path, s := UnresolvedLeaf(items[i], values);
        assert ([Index(i)] + path)[1..] == path;
        path := [Index(i)] + path;
      case Obj(fields) =>
        var k :| k in fields && RenderedTree(fields[k], values).None?;
        path, s := UnresolvedLeaf(fields[k], values);
        assert ([Field(k)] + path)[1..] == path;
        path := [Field(k)] + path;
    }
  }
}
