/** Turning a class's templates into the objects to apply for one namespace. */
module Prepare {
  import opened Wrappers
  import opened Strings
  import opened ResourceRefs
  import opened GvkPolicy
  import opened Cluster
  import opened Template
  import U = Unstructured

  datatype Scope = Namespaced | ClusterWide

  /** The controller's configuration: the policy, and the REST mapper as a partial function to scopes. */
  datatype Setup = Setup(policy: Policy, scopes: map<Gvk, Scope>)

  /** An object ready to be applied and the reference that will be recorded for it. */
  datatype Prepared = Prepared(content: U.Fields, ref: ResourceRef)

  function Refs(resources: seq<Prepared>): seq<ResourceRef> {
    seq(|resources|, i requires 0 <= i < |resources| => resources[i].ref)
  }

  // ----- Template values -----

  const LabelPrefix := ".Namespace.Labels."
  const AnnotationPrefix := ".Namespace.Annotations."

  function PrefixedKeys(prefix: string, m: map<string, string>): set<string> {
    set k | k in m :: prefix + k
  }

  function Prefixed(prefix: string, m: map<string, string>): map<string, string> {
    assert forall k | k in m :: (prefix + k)[|prefix|..] == k;
    map key | key in PrefixedKeys(prefix, m) :: m[key[|prefix|..]]
  }

  lemma PrefixedReads(prefix: string, m: map<string, string>)
    ensures forall k | k in m :: prefix + k in Prefixed(prefix, m) && Prefixed(prefix, m)[prefix + k] == m[k]
    ensures forall key | key in Prefixed(prefix, m) :: exists k :: k in m && key == prefix + k
  {
    assert forall k | k in m :: (prefix + k)[|prefix|..] == k;
  }

  function FixedValues(meta: Meta, className: string): map<string, string> {
    map[".Namespace.Name" := meta.name, ".Namespace.UID" := meta.uid, ".Class.Name" := className]
  }

  function TemplateValues(meta: Meta, className: string): map<string, string> {
    FixedValues(meta, className) + Prefixed(LabelPrefix, meta.labels) + Prefixed(AnnotationPrefix, meta.annotations)
  }

  lemma PrefixesApart(k: string, l: string)
    ensures LabelPrefix + k != AnnotationPrefix + l
    ensures LabelPrefix + k !in [".Namespace.Name", ".Namespace.UID", ".Class.Name"]
    ensures AnnotationPrefix + l !in [".Namespace.Name", ".Namespace.UID", ".Class.Name"]
  {
    assert (LabelPrefix + k)[11] == 'L' && (AnnotationPrefix + l)[11] == 'A';
    assert ".Namespace.Name"[11] == 'N' && ".Namespace.UID"[11] == 'U' && |".Class.Name"| == 11;
  }

  /** The values are a disjoint union: name, UID, class, every label and every annotation keeps its own value
      under its own key, and there are no other keys. */
  lemma TemplateValuesDisjoint(meta: Meta, className: string)
    ensures var values := TemplateValues(meta, className);
            && ".Namespace.Name" in values && values[".Namespace.Name"] == meta.name
            && ".Namespace.UID" in values && values[".Namespace.UID"] == meta.uid
            && ".Class.Name" in values && values[".Class.Name"] == className
            && (forall k | k in meta.labels ::
                  ".Namespace.Labels." + k in values && values[".Namespace.Labels." + k] == meta.labels[k])
            && (forall k | k in meta.annotations ::
                  ".Namespace.Annotations." + k in values
                  && values[".Namespace.Annotations." + k] == meta.annotations[k])
            && (forall key | key in values ::
                  || key in [".Namespace.Name", ".Namespace.UID", ".Class.Name"]
                  || (exists k :: k in meta.labels && key == ".Namespace.Labels." + k)
                  || (exists k :: k in meta.annotations && key == ".Namespace.Annotations." + k))
  {
    hide Prefixed;
    PrefixedReads(LabelPrefix, meta.labels);
    PrefixedReads(AnnotationPrefix, meta.annotations);
    var fixed := [".Namespace.Name", ".Namespace.UID", ".Class.Name"];
    var labels, annotations := Prefixed(LabelPrefix, meta.labels), Prefixed(AnnotationPrefix, meta.annotations);
    forall key | key in labels
      ensures key !in annotations && key !in fixed
    {
      var k :| k in meta.labels && key == LabelPrefix + k;
      PrefixesApart(k, "");
      forall l | l in meta.annotations
        ensures key != AnnotationPrefix + l
      {
        PrefixesApart(k, l);
      }
    }
    forall key | key in annotations
      ensures key !in fixed
    {
      var l :| l in meta.annotations && key == AnnotationPrefix + l;
      PrefixesApart("", l);
    }
    assert |fixed[0]| == 15 && |fixed[1]| == 14 && |fixed[2]| == 11;
    assert forall key | key in FixedValues(meta, className) :: key in fixed;
    assert fixed[0] in fixed && fixed[1] in fixed && fixed[2] in fixed;
  }

  /** A token for the name of the namespace, with or without blanks in it, between two texts. */
  lemma NameTokenRenders(meta: Meta, className: string, before: string, left: string, right: string, after: string)
    requires '{' !in before && '{' !in after
    requires forall c | c in left + right :: c == ' '
    ensures Rendered(before + ("{{" + (left + ".Namespace.Name" + right) + "}}" + after),
                     TemplateValues(meta, className))
            == Success(before + (meta.name + after))
  {
    hide Rendered, TemplateValues, TrimSpace;
    var values, body := TemplateValues(meta, className), left + ".Namespace.Name" + right;
    TemplateValuesDisjoint(meta, className);
    TrimsAround(left, ".Namespace.Name", right);
    assert forall c | c in left || c in right :: c in left + right;
    RenderPlain(after, values);
    RenderToken(body, after, values);
    RenderPrefix(before, "{{" + body + "}}" + after, values);
  }

  /** A template's name with a token in it, as users write it. */
  lemma NameRenders(meta: Meta, className: string)
    ensures Rendered("{{ .Namespace.Name }}-public-sa", TemplateValues(meta, className))
            == Success(meta.name + "-public-sa")
  {
    hide Rendered, TemplateValues;
    NameTokenRenders(meta, className, "", " ", " ", "-public-sa");
    NameToken();
    assert "{{ .Namespace.Name }}" + "-public-sa" == "{{ .Namespace.Name }}-public-sa";
    assert forall text: string :: "" + text == text;
  }

  lemma NameToken()
    ensures "{{" + (" " + ".Namespace.Name" + " ") + "}}" == "{{ .Namespace.Name }}"
  {
    assert " " + ".Namespace.Name" + " " == " .Namespace.Name ";
  }

  /** templateValues: a map literal, then one loop over the labels and one over the annotations. */
  method ComputeTemplateValues(meta: Meta, className: string) returns (values: map<string, string>)
    ensures values == TemplateValues(meta, className)
  {
    values := map[".Namespace.Name" := meta.name, ".Namespace.UID" := meta.uid, ".Class.Name" := className];
    values := AddPrefixed(values, LabelPrefix, meta.labels);
    values := AddPrefixed(values, AnnotationPrefix, meta.annotations);
  }

  lemma PrefixedInsert(prefix: string, m: map<string, string>, k: string, v: string)
    ensures Prefixed(prefix, m[k := v]) == Prefixed(prefix, m)[prefix + k := v]
  {
    hide Prefixed;
    PrefixedReads(prefix, m);
    PrefixedReads(prefix, m[k := v]);
    var more, grown := Prefixed(prefix, m[k := v]), Prefixed(prefix, m)[prefix + k := v];
    forall l
      ensures prefix + l == prefix + k ==> l == k
    {
      assert (prefix + l)[|prefix|..] == l && (prefix + k)[|prefix|..] == k;
    }
    forall key | key in more
      ensures key in grown && more[key] == grown[key]
    {
      var l :| l in m[k := v] && key == prefix + l;
    }
    forall key | key in grown
      ensures key in more
    {
      if key != prefix + k {
        var l :| l in m && key == prefix + l;
        assert l in m[k := v];
      } else {
        assert k in m[k := v];
      }
    }
  }

  lemma MapUpdateRight(a: map<string, string>, b: map<string, string>, k: string, v: string)
    ensures (a + b)[k := v] == a + b[k := v]
  {
  }

  method AddPrefixed(base: map<string, string>, prefix: string, m: map<string, string>)
    returns (values: map<string, string>)
    ensures values == base + Prefixed(prefix, m)
  {
    hide Prefixed;
    values := base;
    ghost var visited: map<string, string> := map[];
    var unvisited := m.Keys;
    PrefixedReads(prefix, map[]);
    assert base + map[] == base;
    while unvisited != {}
      invariant unvisited <= m.Keys
      invariant visited.Keys == m.Keys - unvisited
      invariant forall k | k in visited :: visited[k] == m[k]
      invariant values == base + Prefixed(prefix, visited)
      decreases |unvisited|
    {
      var key :| key in unvisited;
      PrefixedInsert(prefix, visited, key, m[key]);
      MapUpdateRight(base, Prefixed(prefix, visited), prefix + key, m[key]);
      values := values[prefix + key := m[key]];
      visited := visited[key := m[key]];
      unvisited := unvisited - {key};
    }
    assert visited == m;
  }

  // ----- One template -----

  /** The GVK of an object; all empty when its API version cannot be read. */
  function GvkOf(o: U.Fields): Gvk {
    match ParseGroupVersion(U.ApiVersion(o))
    case None => Gvk("", "", "")
    case Some(gv) => Gvk(gv.group, gv.version, U.Kind(o))
  }

  /** Everything prepareManagedResource does to one template apart from looking for an existing object. */
  function Shaped(setup: Setup, meta: Meta, className: string, raw: RawResource): Result<Prepared, Reason> {
    match raw
    case Unreadable => Failure(ApplyFailed)
    case Readable(fields) =>
      match U.RenderedTree(U.Obj(fields), TemplateValues(meta, className))
      case None => Failure(ApplyFailed)
      case Some(tree) =>
        if !tree.Obj? then Failure(ApplyFailed) else ShapedObject(setup, meta, className, tree.fields)
  }

  function ShapedObject(setup: Setup, meta: Meta, className: string, o: U.Fields): Result<Prepared, Reason> {
    var gvk := GvkOf(o);
    if gvk.kind == "" then Failure(ApplyFailed)
    else if U.Name(o) == "" then Failure(ApplyFailed)
    else if Validate(setup.policy, gvk) != Allowed then Failure(GvkDenied)
    else if gvk !in setup.scopes then Failure(ApplyFailed)
    else
      var namespace := if setup.scopes[gvk] == Namespaced then meta.name else "";
      Success(Prepared(U.Managed(o, namespace, meta.name, meta.uid, className),
                       ResourceRef(U.ApiVersion(o), U.Kind(o), namespace, U.Name(o))))
  }

  /** What holds of every prepared object. */
  predicate WellPrepared(setup: Setup, meta: Meta, p: Prepared) {
    && ObjectOf(p.ref).Some?
    && p.ref == ResourceRef(U.ApiVersion(p.content), U.Kind(p.content), U.Namespace(p.content), U.Name(p.content))
    && p.ref.name != "" && p.ref.kind != ""
    && U.IsManagedBy(p.content, meta.uid)
    && Validate(setup.policy, GvkOf(p.content)) == Allowed
    && GvkOf(p.content) in setup.scopes
    && p.ref.namespace == (if setup.scopes[GvkOf(p.content)] == Namespaced then meta.name else "")
  }

  lemma ShapedIsWellPrepared(setup: Setup, meta: Meta, className: string, raw: RawResource)
    requires Shaped(setup, meta, className, raw).Success?
    ensures WellPrepared(setup, meta, Shaped(setup, meta, className, raw).value)
  {
    hide U.Managed, U.ApiVersion, U.Kind, U.Name, U.Namespace, U.Labels, U.Annotations, U.IsManagedBy;
    hide U.RenderedTree, ParseGroupVersion, Validate, U.OwnerLabels, TemplateValues;
    var o := U.RenderedTree(U.Obj(raw.fields), TemplateValues(meta, className)).value.fields;
    var namespace := if setup.scopes[GvkOf(o)] == Namespaced then meta.name else "";
    U.ManagedIsMarked(o, namespace, meta.name, meta.uid, className);
  }

  // ----- What is prepared, from the template -----

  /** The path leads into the body of an object, or into metadata the controller does not write. */
  predicate BesidesMarkers(path: seq<U.Step>) {
    && path != []
    && (path[0] == U.Field("metadata") ==>
          |path| > 1 && path[1] !in [U.Field("labels"), U.Field("annotations"), U.Field("namespace"),
                                     U.Field("resourceVersion"), U.Field("managedFields")])
  }

  lemma SameAt(o: U.Fields, o': U.Fields, path: seq<U.Step>)
    requires U.SameBut(o, o', {"labels", "annotations", "namespace", "resourceVersion", "managedFields"})
    requires BesidesMarkers(path)
    ensures U.At(U.Obj(o'), path) == U.At(U.Obj(o), path)
  {
    var rest := path[1..];
    if path[0] == U.Field("metadata") {
      assert rest[0] == path[1];
      assert U.At(U.Obj(o'), path) == U.At(o'["metadata"], rest);
      assert U.At(U.Obj(o), path) == U.At(o["metadata"], rest);
    }
  }

  /** What an object is prepared from carries over: at every path besides the markers, the object sent has
      what the template has there, with string leaves rendered for this namespace and class. */
  lemma ShapedContent(setup: Setup, meta: Meta, className: string, raw: RawResource, path: seq<U.Step>)
    requires Shaped(setup, meta, className, raw).Success?
    requires BesidesMarkers(path)
    ensures var sent := Shaped(setup, meta, className, raw).value.content;
            var v, w := U.At(U.Obj(raw.fields), path), U.At(U.Obj(sent), path);
            && (v.Some? <==> w.Some?)
            && (v.Some? ==> U.RootRendered(v.value, w.value, TemplateValues(meta, className)))
  {
    hide U.Managed, U.At, U.RootRendered, U.RenderedTree, TemplateValues, Validate, BesidesMarkers, GvkOf;
    var tree := U.RenderedTree(U.Obj(raw.fields), TemplateValues(meta, className)).value;
    U.RenderingPreservesShape(U.Obj(raw.fields), TemplateValues(meta, className), path);
    var o := tree.fields;
    assert "metadata" in o && o["metadata"].Obj?;
    var namespace := if setup.scopes[GvkOf(o)] == Namespaced then meta.name else "";
    U.ManagedKeepsBody(o, namespace, meta.name, meta.uid, className);
    SameAt(o, U.Managed(o, namespace, meta.name, meta.uid, className), path);
  }

  /** What a prepared object says about itself. */
  lemma ShapedMarkers(setup: Setup, meta: Meta, className: string, raw: RawResource)
    requires Shaped(setup, meta, className, raw).Success?
    ensures var sent := Shaped(setup, meta, className, raw).value.content;
            && U.Text(sent, "labels", "namespaceclass.akuity.io/managed") == "true"
            && U.Text(sent, "labels", "namespaceclass.akuity.io/class") == className
            && U.Text(sent, "labels", "namespaceclass.akuity.io/namespace") == meta.name
            && U.Text(sent, "annotations", "namespaceclass.akuity.io/owner-namespace-uid") == meta.uid
  {
    hide U.Managed, U.Text, U.RenderedTree, TemplateValues, Validate, GvkOf;
    var o := U.RenderedTree(U.Obj(raw.fields), TemplateValues(meta, className)).value.fields;
    var namespace := if setup.scopes[GvkOf(o)] == Namespaced then meta.name else "";
    U.ManagedMarkers(o, namespace, meta.name, meta.uid, className);
  }

  // ----- What the policy refuses, from the template -----

  /** The template has a text of that name, which renders to the one given. */
  ghost predicate RendersTo(fields: U.Fields, k: string, values: Values, text: string) {
    k in fields && fields[k].Str? && Rendered(fields[k].s, values) == Success(text)
  }

  /** The template spells a kind and a name. */
  ghost predicate Spells(fields: U.Fields, values: Values, g: Gvk, name: string) {
    && RendersTo(fields, "apiVersion", values, Spelled(g.group, g.version))
    && RendersTo(fields, "kind", values, g.kind)
    && "metadata" in fields && fields["metadata"].Obj?
    && RendersTo(fields["metadata"].fields, "name", values, name)
  }

  lemma SpellsReads(fields: U.Fields, values: Values, g: Gvk, name: string)
    requires SlashFree(g) && g.version != "" && Spells(fields, values, g, name)
    requires U.RenderedTree(U.Obj(fields), values).Some?
    ensures U.RenderedTree(U.Obj(fields), values).value.Obj?
    ensures var o := U.RenderedTree(U.Obj(fields), values).value.fields;
            && U.ApiVersion(o) == Spelled(g.group, g.version) && U.Kind(o) == g.kind && U.Name(o) == name
            && GvkOf(o) == g
  {
    hide ParseGroupVersion, Spelled, Rendered, U.RenderedTree;
    SpelledReads(g.group, g.version);
    FieldRendered(fields, values, "apiVersion");
    FieldRendered(fields, values, "kind");
    FieldRendered(fields, values, "metadata");
    FieldRendered(fields["metadata"].fields, values, "name");
  }

  lemma FieldRendered(fields: U.Fields, values: Values, k: string)
    requires U.RenderedTree(U.Obj(fields), values).Some? && k in fields
    ensures var tree := U.RenderedTree(U.Obj(fields), values).value;
            && tree.Obj? && k in tree.fields
            && U.RenderedTree(fields[k], values) == Some(tree.fields[k])
            && (fields[k].Obj? ==> tree.fields[k].Obj?)
            && (fields[k].Str? && Rendered(fields[k].s, values).Success? ==>
                  tree.fields[k] == U.Str(Rendered(fields[k].s, values).value))
  {
    hide Rendered;
  }

  /** With a policy read from two written lists, a template that can be rendered and spells a kind g and a name
      is refused by the policy exactly when g is on the deny list, or there is an allow list without it; what
      is left fails or is prepared by whether g is mapped. */
  lemma PolicyDecidesTemplate(setup: Setup, meta: Meta, className: string, fields: U.Fields, g: Gvk, name: string,
                              allow: seq<Entry>, deny: seq<Entry>)
    requires ValidEntries(allow) && ValidEntries(deny)
    requires PolicyOf(Csv(allow), Csv(deny)) == Some(setup.policy)
    requires SlashFree(g) && g.version != "" && g.kind != ""
    requires Spells(fields, TemplateValues(meta, className), g, name)
    requires U.RenderedTree(U.Obj(fields), TemplateValues(meta, className)).Some?
    ensures match Shaped(setup, meta, className, Readable(fields))
            case Failure(reason) =>
              if name == "" then reason == ApplyFailed
              else if g in Written(deny) || (Written(allow) != {} && g !in Written(allow)) then reason == GvkDenied
              else g !in setup.scopes && reason == ApplyFailed
            case Success(p) =>
              && name != "" && g !in Written(deny) && (Written(allow) == {} || g in Written(allow))
              && g in setup.scopes
              && p.ref == ResourceRef(if g.group == "" then g.version else g.group + "/" + g.version, g.kind,
                                      if setup.scopes[g] == Namespaced then meta.name else "", name)
              && ObjectOf(p.ref) == Some(ObjectId(g.group, g.kind, p.ref.namespace, name))
  {
    hide U.Managed, Validate, PolicyOf, Csv, Written, ValidEntries, ParseGroupVersion, SlashFree, Spells, GvkOf;
    hide U.RenderedTree, TemplateValues;
    SpellsReads(fields, TemplateValues(meta, className), g, name);
    ValidateDecides(allow, deny, g);
    SlashFreeReads(g);
  }

  lemma SlashFreeReads(g: Gvk)
    requires SlashFree(g) && g.version != ""
    ensures ParseGroupVersion(Spelled(g.group, g.version)) == Some(GroupVersion(g.group, g.version))
  {
    hide ParseGroupVersion;
    SpelledReads(g.group, g.version);
  }

  lemma PlainSpells(fields: U.Fields, values: Values, g: Gvk, name: string)
    requires "apiVersion" in fields && fields["apiVersion"] == U.Str(Spelled(g.group, g.version))
    requires "kind" in fields && fields["kind"] == U.Str(g.kind)
    requires '{' !in g.group && '{' !in g.version && '{' !in g.kind
    requires "metadata" in fields && fields["metadata"].Obj?
    requires RendersTo(fields["metadata"].fields, "name", values, name)
    ensures Spells(fields, values, g, name)
  {
    hide Rendered;
    RenderPlain(Spelled(g.group, g.version), values);
    RenderPlain(g.kind, values);
  }

  /** Under the default policy, no allow list and cluster role bindings denied, a template for one is refused
      whatever the mapping knows. */
  lemma DefaultPolicyRefuses(setup: Setup, meta: Meta, className: string, fields: U.Fields, name: string)
    requires PolicyOf("", "rbac.authorization.k8s.io/v1/ClusterRoleBinding") == Some(setup.policy)
    requires "apiVersion" in fields && fields["apiVersion"] == U.Str("rbac.authorization.k8s.io/v1")
    requires "kind" in fields && fields["kind"] == U.Str("ClusterRoleBinding")
    requires "metadata" in fields && fields["metadata"].Obj?
    requires RendersTo(fields["metadata"].fields, "name", TemplateValues(meta, className), name) && name != ""
    requires U.RenderedTree(U.Obj(fields), TemplateValues(meta, className)).Some?
    ensures Shaped(setup, meta, className, Readable(fields)) == Failure(GvkDenied)
  {
    hide Shaped, PolicyOf, Csv, TemplateValues, Rendered, U.RenderedTree, RendersTo, Spells;
    var denied := Gvk("rbac.authorization.k8s.io", "v1", "ClusterRoleBinding");
    DefaultDenyList();
    DeniedWords();
    PlainSpells(fields, TemplateValues(meta, className), denied, name);
    PolicyDecidesTemplate(setup, meta, className, fields, denied, name, [], [Entry("", Some(denied), "")]);
  }

  /** Under the default policy a template for a deployment is prepared where deployments are mapped. */
  lemma DefaultPolicyAllows(setup: Setup, meta: Meta, className: string, fields: U.Fields, name: string)
    requires PolicyOf("", "rbac.authorization.k8s.io/v1/ClusterRoleBinding") == Some(setup.policy)
    requires "apiVersion" in fields && fields["apiVersion"] == U.Str("apps/v1")
    requires "kind" in fields && fields["kind"] == U.Str("Deployment")
    requires "metadata" in fields && fields["metadata"].Obj?
    requires RendersTo(fields["metadata"].fields, "name", TemplateValues(meta, className), name) && name != ""
    requires U.RenderedTree(U.Obj(fields), TemplateValues(meta, className)).Some?
    requires Gvk("apps", "v1", "Deployment") in setup.scopes
    ensures Shaped(setup, meta, className, Readable(fields)).Success?
  {
    hide Shaped, PolicyOf, Csv, TemplateValues, Rendered, U.RenderedTree, RendersTo, Spells;
    var g, denied := Gvk("apps", "v1", "Deployment"), Gvk("rbac.authorization.k8s.io", "v1", "ClusterRoleBinding");
    var deny := [Entry("", Some(denied), "")];
    DefaultDenyList();
    PlainSpells(fields, TemplateValues(meta, className), g, name);
    PolicyDecidesTemplate(setup, meta, className, fields, g, name, [], deny);
    assert g.version == denied.version && |g.group| != |denied.group|;
  }

  lemma DefaultDenyList()
    ensures var deny := [Entry("", Some(Gvk("rbac.authorization.k8s.io", "v1", "ClusterRoleBinding")), "")];
            && ValidEntries([]) && ValidEntries(deny)
            && Csv([]) == "" && Csv(deny) == "rbac.authorization.k8s.io/v1/ClusterRoleBinding"
  {
    hide WellFormed, Format;
    var denied, text := Gvk("rbac.authorization.k8s.io", "v1", "ClusterRoleBinding"),
                        "rbac.authorization.k8s.io/v1/ClusterRoleBinding";
    DeniedIsWellFormed();
    assert Csv([Entry("", Some(denied), "")]) == "" + text + "" == text;
  }

  lemma DeniedIsWellFormed()
    ensures var denied := Gvk("rbac.authorization.k8s.io", "v1", "ClusterRoleBinding");
            && WellFormed(denied) && ',' !in Format(denied)
            && Format(denied) == "rbac.authorization.k8s.io/v1/ClusterRoleBinding"
  {
    hide WellFormed;
    DeniedText();
    DeniedWords();
    PlainKind(Gvk("rbac.authorization.k8s.io", "v1", "ClusterRoleBinding"));
  }

  lemma DeniedText()
    ensures "rbac.authorization.k8s.io" + "/" + "v1" + "/" + "ClusterRoleBinding"
            == "rbac.authorization.k8s.io/v1/ClusterRoleBinding"
  {
  }

  lemma DeniedWords()
    ensures forall c | c in "rbac.authorization.k8s.io" || c in "v1" || c in "ClusterRoleBinding" ::
              c != '/' && c != ',' && c != '{'
  {
  }

  /** A kind of three plain words with a letter at either end can be put on a list. */
  lemma PlainKind(g: Gvk)
    requires g.group != "" && g.version != "" && g.kind != ""
    requires forall c | c in g.group || c in g.version || c in g.kind :: c != '/' && c != ','
    requires 'A' <= g.group[0] <= 'z' && 'A' <= g.kind[|g.kind| - 1] <= 'z'
    ensures WellFormed(g) && ',' !in Format(g)
  {
    var text := Format(g);
    assert text[0] == g.group[0] && text[|text| - 1] == g.kind[|g.kind| - 1];
  }

  // ----- Objects without an API version -----

  /** The check that API version and kind are present refuses exactly the objects without a kind and those
      whose API version cannot be read; an absent API version can be read. */
  lemma IdentityCheckExactly(setup: Setup, meta: Meta, className: string, o: U.Fields)
    ensures GvkOf(o).kind != "" <==> U.Kind(o) != "" && ParseGroupVersion(U.ApiVersion(o)).Some?
    ensures U.ApiVersion(o) == "" ==>
              var gvk := Gvk("", "", U.Kind(o));
              ShapedObject(setup, meta, className, o).Success?
              <==> gvk.kind != "" && U.Name(o) != "" && Validate(setup.policy, gvk) == Allowed && gvk in setup.scopes
  {
    hide U.Managed, Validate, Split;
  }

  /** A ConfigMap without an API version is prepared, where the mapping knows it. */
  lemma PreparedWithoutApiVersion(meta: Meta, className: string)
    ensures var o: U.Fields := map["kind" := U.Str("ConfigMap"), "metadata" := U.Obj(map["name" := U.Str("app")])];
            var setup := Setup(Policy({}, {}), map[Gvk("", "", "ConfigMap") := Namespaced]);
            ShapedObject(setup, meta, className, o).Success?
  {
    hide U.Managed;
    var o: U.Fields := map["kind" := U.Str("ConfigMap"), "metadata" := U.Obj(map["name" := U.Str("app")])];
    IdentityCheckExactly(Setup(Policy({}, {}), map[Gvk("", "", "ConfigMap") := Namespaced]), meta, className, o);
    assert U.Name(o) == "app" && U.ApiVersion(o) == "";
  }

  // ----- All templates of a class -----

  /** An object of that identity exists and is not marked as owned by the namespace. */
  predicate Foreign(objects: map<ObjectId, U.Fields>, ref: ResourceRef, uid: string) {
    ObjectOf(ref).Some? && ObjectOf(ref).value in objects && !U.IsManagedBy(objects[ObjectOf(ref).value], uid)
  }

  /** prepareManagedResource on one template; readFails says whether its one API call fails. */
  function PreparedOne(setup: Setup, meta: Meta, className: string, raw: RawResource,
                       objects: map<ObjectId, U.Fields>, readFails: bool): Result<Prepared, Reason> {
    match Shaped(setup, meta, className, raw)
    case Failure(reason) => Failure(reason)
    case Success(p) =>
      if readFails then Failure(ApplyFailed)
      else if Foreign(objects, p.ref, meta.uid) then Failure(ApplyConflict)
      else Success(p)
  }

  /** A template that is otherwise fine is refused as a conflict exactly when an object of its identity exists
      that is not labelled as managed or not annotated with the UID of this namespace. */
  lemma ConflictExactly(setup: Setup, meta: Meta, className: string, raw: RawResource, objects: map<ObjectId, U.Fields>)
    requires Shaped(setup, meta, className, raw).Success?
    ensures ObjectOf(Shaped(setup, meta, className, raw).value.ref).Some?
    ensures var p := Shaped(setup, meta, className, raw).value;
            var id := ObjectOf(p.ref).value;
            PreparedOne(setup, meta, className, raw, objects, false)
            == if id in objects
                  && (|| U.Text(objects[id], "labels", "namespaceclass.akuity.io/managed") != "true"
                      || U.Text(objects[id], "annotations", "namespaceclass.akuity.io/owner-namespace-uid")
                         != meta.uid)
               then Failure(ApplyConflict) else Success(p)
  {
    hide Shaped, U.Text, U.IsManagedBy, GvkOf, Validate;
    ShapedIsWellPrepared(setup, meta, className, raw);
    var id := ObjectOf(Shaped(setup, meta, className, raw).value.ref).value;
    if id in objects {
      U.OwnedExactly(objects[id], meta.uid);
    }
  }

  /** Two namespaces whose templates give one object: whoever comes second is refused. */
  lemma ContestedIsConflict(setup: Setup, meta: Meta, className: string, raw: RawResource,
                            meta': Meta, className': string, raw': RawResource, objects: map<ObjectId, U.Fields>)
    requires Shaped(setup, meta, className, raw).Success? && Shaped(setup, meta', className', raw').Success?
    requires meta.uid != meta'.uid
    requires var first := Shaped(setup, meta', className', raw').value;
             var second := Shaped(setup, meta, className, raw).value;
             && ObjectOf(second.ref).Some? && ObjectOf(second.ref).value in objects
             && objects[ObjectOf(second.ref).value] == first.content
    ensures PreparedOne(setup, meta, className, raw, objects, false) == Failure(ApplyConflict)
  {
    hide Shaped, U.Text, ObjectOf, PreparedOne;
    ShapedMarkers(setup, meta', className', raw');
    ConflictExactly(setup, meta, className, raw, objects);
  }

  /** The first n templates prepared in list order. The API call made for template `broken` fails; no call
      fails when there is no template of that index. */
  function PreparedPrefix(setup: Setup, meta: Meta, cls: NamespaceClass, objects: map<ObjectId, U.Fields>,
                          broken: nat, n: nat): Result<seq<Prepared>, Reason>
    requires n <= |cls.resources|
  {
    if n == 0 then Success([]) else
      match PreparedPrefix(setup, meta, cls, objects, broken, n - 1)
      case Failure(reason) => Failure(reason)
      case Success(done) =>
        match PreparedOne(setup, meta, cls.name, cls.resources[n - 1], objects, n - 1 == broken)
        case Failure(reason) => Failure(reason)
        case Success(p) =>
          if Key(p.ref) in Keys(Refs(done)) then Failure(DuplicateResource) else Success(done + [p])
  }

  /** prepareManagedResources. */
  function PreparedAll(setup: Setup, meta: Meta, cls: NamespaceClass, objects: map<ObjectId, U.Fields>,
                       broken: nat): Result<seq<Prepared>, Reason> {
    PreparedPrefix(setup, meta, cls, objects, broken, |cls.resources|)
  }

  /** Which later call fails makes no difference to the templates before it. */
  lemma {:induction false} PrefixBeforeFailure(setup: Setup, meta: Meta, cls: NamespaceClass,
                                               objects: map<ObjectId, U.Fields>, a: nat, b: nat, n: nat)
    requires n <= |cls.resources| && n <= a && n <= b
    ensures PreparedPrefix(setup, meta, cls, objects, a, n) == PreparedPrefix(setup, meta, cls, objects, b, n)
  {
    hide PreparedOne, Key;
    if n > 0 {
      PrefixBeforeFailure(setup, meta, cls, objects, a, b, n - 1);
    }
  }

  /** The first failure is the result. */
  lemma {:induction false} PrefixFails(setup: Setup, meta: Meta, cls: NamespaceClass, objects: map<ObjectId, U.Fields>,
                                       broken: nat, n: nat, m: nat)
    requires n <= m <= |cls.resources|
    requires PreparedPrefix(setup, meta, cls, objects, broken, n).Failure?
    ensures PreparedPrefix(setup, meta, cls, objects, broken, m) == PreparedPrefix(setup, meta, cls, objects, broken, n)
  {
    hide PreparedOne, Key;
    if n < m {
      PrefixFails(setup, meta, cls, objects, broken, n, m - 1);
    }
  }

  /** What is wrong with template i, looked at by itself. */
  ghost function Problem(setup: Setup, meta: Meta, cls: NamespaceClass, objects: map<ObjectId, U.Fields>,
                         broken: nat, i: nat): Option<Reason>
    requires i < |cls.resources|
  {
    match Shaped(setup, meta, cls.name, cls.resources[i])
    case Failure(reason) => Some(reason)
    case Success(p) =>
      if i == broken then Some(ApplyFailed)
      else if Foreign(objects, p.ref, meta.uid) then Some(ApplyConflict)
      else if Repeats(setup, meta, cls, i, p.ref) then Some(DuplicateResource)
      else None
  }

  /** An earlier template has the key of ref. */
  ghost predicate Repeats(setup: Setup, meta: Meta, cls: NamespaceClass, i: nat, ref: ResourceRef)
    requires i < |cls.resources|
  {
    exists j :: 0 <= j < i && Shaped(setup, meta, cls.name, cls.resources[j]).Success?
                && Key(Shaped(setup, meta, cls.name, cls.resources[j]).value.ref) == Key(ref)
  }

  /** The prepared objects are the templates' own, in order and one for one. */
  ghost predicate FromTemplates(setup: Setup, meta: Meta, cls: NamespaceClass, resources: seq<Prepared>) {
    && |resources| <= |cls.resources|
    && forall i | 0 <= i < |resources| :: Shaped(setup, meta, cls.name, cls.resources[i]) == Success(resources[i])
  }

  ghost predicate DistinctKeys(refs: seq<ResourceRef>) {
    forall i, j | 0 <= i < j < |refs| :: Key(refs[i]) != Key(refs[j])
  }

  /** Sorting references with distinct keys only reorders them. */
  lemma SortedPermutes(refs: seq<ResourceRef>)
    requires DistinctKeys(refs)
    ensures multiset(Sorted(refs)) == multiset(refs)
  {
    InsertAllPermutes([], refs);
  }

  lemma {:induction false} InsertAllPermutes(refs: seq<ResourceRef>, more: seq<ResourceRef>)
    requires DistinctKeys(more)
    requires forall r, s | r in refs && s in more :: Key(r) != Key(s)
    ensures multiset(InsertAll(refs, more)) == multiset(refs) + multiset(more)
    decreases more
  {
    hide Key;
    if more != [] {
      InsertPermutes(refs, more[0]);
      var rest := more[1..];
      forall r, s | r in Insert(refs, more[0]) && s in rest
        ensures Key(r) != Key(s)
      {
        assert multiset(Insert(refs, more[0]))[r] > 0;
        assert r in refs || r == more[0];
        var j :| 0 <= j < |rest| && rest[j] == s;
        assert more[j + 1] == s;
      }
      InsertAllPermutes(Insert(refs, more[0]), rest);
      assert more == [more[0]] + rest;
    }
  }

  lemma {:induction false} InsertPermutes(refs: seq<ResourceRef>, r: ResourceRef)
    requires forall s | s in refs :: Key(s) != Key(r)
    ensures multiset(Insert(refs, r)) == multiset(refs) + multiset{r}
  {
    hide Key;
    if refs != [] {
      assert refs == [refs[0]] + refs[1..];
      InsertPermutes(refs[1..], r);
    }
  }

  lemma {:induction false} PrefixGate(setup: Setup, meta: Meta, cls: NamespaceClass, objects: map<ObjectId, U.Fields>,
                                      broken: nat, n: nat)
    requires n <= |cls.resources|
    ensures match PreparedPrefix(setup, meta, cls, objects, broken, n)
            case Success(resources) =>
              && |resources| == n
              && FromTemplates(setup, meta, cls, resources)
              && (forall i | 0 <= i < n :: Problem(setup, meta, cls, objects, broken, i).None?)
              && DistinctKeys(Refs(resources))
            case Failure(reason) =>
              exists i :: 0 <= i < n && Problem(setup, meta, cls, objects, broken, i) == Some(reason)
                          && forall j | 0 <= j < i :: Problem(setup, meta, cls, objects, broken, j).None?
  {
    hide Shaped, Key, Foreign;
    if n > 0 {
      PrefixGate(setup, meta, cls, objects, broken, n - 1);
      match PreparedPrefix(setup, meta, cls, objects, broken, n - 1) {
        case Failure(reason) =>
          var i :| 0 <= i < n - 1 && Problem(setup, meta, cls, objects, broken, i) == Some(reason)
                   && forall j | 0 <= j < i :: Problem(setup, meta, cls, objects, broken, j).None?;
          assert 0 <= i < n;
        case Success(done) =>
          assert PreparedPrefix(setup, meta, cls, objects, broken, n).Failure? ==> 0 <= n - 1 < n;
          match Shaped(setup, meta, cls.name, cls.resources[n - 1]) {
            case Failure(reason) =>
              assert Problem(setup, meta, cls, objects, broken, n - 1) == Some(reason);
            case Success(p) =>
              RepeatsIsMembership(setup, meta, cls, done, p.ref);
              AppendDistinct(done, p);
              var problem := Problem(setup, meta, cls, objects, broken, n - 1);
              match PreparedPrefix(setup, meta, cls, objects, broken, n) {
                case Failure(reason) => assert problem == Some(reason);
                case Success(resources) =>
                  assert resources == done + [p] && problem.None?;
                  assert FromTemplates(setup, meta, cls, resources);
              }
          }
      }
    }
  }

  lemma RepeatsIsMembership(setup: Setup, meta: Meta, cls: NamespaceClass, done: seq<Prepared>, ref: ResourceRef)
    requires FromTemplates(setup, meta, cls, done) && |done| < |cls.resources|
    ensures Repeats(setup, meta, cls, |done|, ref) <==> Key(ref) in Keys(Refs(done))
  {
    hide Shaped, Key;
    if Key(ref) in Keys(Refs(done)) {
      var r :| r in Refs(done) && Key(r) == Key(ref);
      var j :| 0 <= j < |done| && Refs(done)[j] == r;
      assert Shaped(setup, meta, cls.name, cls.resources[j]) == Success(done[j]);
    }
    if Repeats(setup, meta, cls, |done|, ref) {
      var j :| 0 <= j < |done| && Shaped(setup, meta, cls.name, cls.resources[j]).Success?
                && Key(Shaped(setup, meta, cls.name, cls.resources[j]).value.ref) == Key(ref);
      assert Refs(done)[j] in Refs(done);
    }
  }

  lemma AppendDistinct(done: seq<Prepared>, p: Prepared)
    requires DistinctKeys(Refs(done))
    ensures Key(p.ref) !in Keys(Refs(done)) ==> DistinctKeys(Refs(done + [p]))
  {
    hide Key;
    assert Refs(done + [p]) == Refs(done) + [p.ref];
    forall i | 0 <= i < |done|
      ensures Key(Refs(done)[i]) in Keys(Refs(done))
    {
      assert Refs(done)[i] in Refs(done);
    }
  }

  /** The gate is all or nothing: it opens exactly when no template has a problem, the reason it gives is
      that of the first one that has, and what it lets through is every template, with distinct keys, free
      of foreign objects and allowed by the policy. */
  lemma PrepareGate(setup: Setup, meta: Meta, cls: NamespaceClass, objects: map<ObjectId, U.Fields>, broken: nat)
    ensures PreparedAll(setup, meta, cls, objects, broken).Success? <==>
            forall i | 0 <= i < |cls.resources| :: Problem(setup, meta, cls, objects, broken, i).None?
    ensures match PreparedAll(setup, meta, cls, objects, broken)
            case Success(resources) =>
              && |resources| == |cls.resources|
              && DistinctKeys(Refs(resources))
              && (forall i | 0 <= i < |resources| ::
                    && Shaped(setup, meta, cls.name, cls.resources[i]) == Success(resources[i])
                    && WellPrepared(setup, meta, resources[i])
                    && !Foreign(objects, resources[i].ref, meta.uid))
            case Failure(reason) =>
              exists i :: 0 <= i < |cls.resources| && Problem(setup, meta, cls, objects, broken, i) == Some(reason)
                          && forall j | 0 <= j < i :: Problem(setup, meta, cls, objects, broken, j).None?
  {
    hide Shaped, Key, Foreign, WellPrepared;
    PrefixGate(setup, meta, cls, objects, broken, |cls.resources|);
    match PreparedAll(setup, meta, cls, objects, broken) {
      case Failure(reason) =>
      case Success(resources) =>
        forall i | 0 <= i < |resources|
          ensures WellPrepared(setup, meta, resources[i]) && !Foreign(objects, resources[i].ref, meta.uid)
        {
          ShapedIsWellPrepared(setup, meta, cls.name, cls.resources[i]);
          assert Problem(setup, meta, cls, objects, broken, i).None?;
        }
    }
  }

  /** What the gate lets through is the class's templates, each with its own content rendered. */
  lemma PreparedContent(setup: Setup, meta: Meta, cls: NamespaceClass, objects: map<ObjectId, U.Fields>, broken: nat,
                        i: nat, path: seq<U.Step>)
    requires PreparedAll(setup, meta, cls, objects, broken).Success?
    requires i < |cls.resources| && BesidesMarkers(path)
    ensures cls.resources[i].Readable?
    ensures var resources := PreparedAll(setup, meta, cls, objects, broken).value;
            |resources| == |cls.resources|
            && var v, w := U.At(U.Obj(cls.resources[i].fields), path), U.At(U.Obj(resources[i].content), path);
               && (v.Some? <==> w.Some?)
               && (v.Some? ==> U.RootRendered(v.value, w.value, TemplateValues(meta, cls.name)))
  {
    hide PreparedAll, Key, Foreign, WellPrepared, Problem, BesidesMarkers, U.At, U.RootRendered, ShapedObject;
    hide U.RenderedTree, TemplateValues;
    PrepareGate(setup, meta, cls, objects, broken);
    var resources := PreparedAll(setup, meta, cls, objects, broken).value;
    assert Shaped(setup, meta, cls.name, cls.resources[i]) == Success(resources[i]);
    ShapedContent(setup, meta, cls.name, cls.resources[i], path);
  }

  // ----- The desired set -----

  /** The objects a class asks for in a namespace: a function of the class and the metadata alone. */
  ghost predicate Desires(setup: Setup, meta: Meta, cls: NamespaceClass, resources: seq<Prepared>) {
    && |resources| == |cls.resources|
    && FromTemplates(setup, meta, cls, resources)
    && DistinctKeys(Refs(resources))
  }

  lemma DesiredUnique(setup: Setup, meta: Meta, cls: NamespaceClass, a: seq<Prepared>, b: seq<Prepared>)
    requires Desires(setup, meta, cls, a) && Desires(setup, meta, cls, b)
    ensures a == b
  {
    hide Shaped, Key;
    forall i | 0 <= i < |a|
      ensures a[i] == b[i]
    {
      assert Shaped(setup, meta, cls.name, cls.resources[i]) == Success(a[i]);
    }
  }

  lemma PreparedIsDesired(setup: Setup, meta: Meta, cls: NamespaceClass, objects: map<ObjectId, U.Fields>, broken: nat)
    requires PreparedAll(setup, meta, cls, objects, broken).Success?
    ensures Desires(setup, meta, cls, PreparedAll(setup, meta, cls, objects, broken).value)
  {
    hide Shaped, Key;
    PrefixGate(setup, meta, cls, objects, broken, |cls.resources|);
  }

  /** The desired set passes the gate again whenever none of its objects is foreign. */
  lemma {:induction false} DesiredPasses(setup: Setup, meta: Meta, cls: NamespaceClass,
                                         objects: map<ObjectId, U.Fields>, broken: nat, resources: seq<Prepared>)
    requires Desires(setup, meta, cls, resources) && broken >= |cls.resources|
    requires forall i | 0 <= i < |resources| :: !Foreign(objects, resources[i].ref, meta.uid)
    ensures PreparedAll(setup, meta, cls, objects, broken) == Success(resources)
  {
    hide Shaped, Key, Foreign;
    forall i | 0 <= i < |cls.resources|
      ensures Problem(setup, meta, cls, objects, broken, i).None?
    {
      assert Shaped(setup, meta, cls.name, cls.resources[i]) == Success(resources[i]);
      forall j | 0 <= j < i
        ensures Shaped(setup, meta, cls.name, cls.resources[j]) == Success(resources[j])
        ensures Key(resources[j].ref) != Key(resources[i].ref)
      {
        assert Refs(resources)[j] == resources[j].ref && Refs(resources)[i] == resources[i].ref;
      }
    }
    PrefixGate(setup, meta, cls, objects, broken, |cls.resources|);
    DesiredUnique(setup, meta, cls, PreparedAll(setup, meta, cls, objects, broken).value, resources);
  }
}
