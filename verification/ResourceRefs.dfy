/** Resource references: identity keys, the stored object a reference names, and canonical lists. */
module ResourceRefs {
  import opened Wrappers
  import opened Strings

  datatype ResourceRef = ResourceRef(apiVersion: string, kind: string, namespace: string, name: string)

  // ----- Identity keys -----

  /** The key the controller compares references by. */
  function Key(r: ResourceRef): string {
    r.apiVersion + "/" + r.kind + "/" + r.namespace + "/" + r.name
  }

  predicate SlashFreeParts(r: ResourceRef) {
    '/' !in r.kind && '/' !in r.namespace && '/' !in r.name
  }

  /** The key identifies the reference although the API version may itself contain a slash. */
  lemma KeyInjective(r: ResourceRef, s: ResourceRef)
    requires SlashFreeParts(r) && SlashFreeParts(s)
    requires Key(r) == Key(s)
    ensures r == s
  {
    var rk, sk := r.apiVersion + "/" + r.kind, s.apiVersion + "/" + s.kind;
    LastSeparator(rk + "/" + r.namespace, r.name, sk + "/" + s.namespace, s.name, '/');
    LastSeparator(rk, r.namespace, sk, s.namespace, '/');
    LastSeparator(r.apiVersion, r.kind, s.apiVersion, s.kind, '/');
  }

  /** Without that restriction it does not: the name of one reference can swallow a slash. */
  lemma KeyCollides()
    ensures var r, s := ResourceRef("v1", "Secret", "a", "b/c"), ResourceRef("v1", "Secret", "a/b", "c");
            r != s && Key(r) == Key(s)
  {
    var r, s := ResourceRef("v1", "Secret", "a", "b/c"), ResourceRef("v1", "Secret", "a/b", "c");
    assert Key(r) == "v1/Secret/a/b/c";
    assert Key(s) == "v1/Secret/a/b/c";
  }

  datatype KeyError = ApiVersionRequired | KindRequired | NameRequired

  const NUL: char := '\0'

  /** The inventory package's key: required fields checked, parts separated by NUL. */
  function InventoryKey(r: ResourceRef): Result<string, KeyError> {
    if TrimSpace(r.apiVersion) == "" then Failure(ApiVersionRequired)
    else if TrimSpace(r.kind) == "" then Failure(KindRequired)
    else if TrimSpace(r.name) == "" then Failure(NameRequired)
    else Success(Join([r.apiVersion, r.kind, r.namespace, r.name], NUL))
  }

  predicate NulFree(r: ResourceRef) {
    NUL !in r.apiVersion && NUL !in r.kind && NUL !in r.namespace && NUL !in r.name
  }

  /** The key exists exactly when the three required fields are not blank. */
  lemma InventoryKeyDefined(r: ResourceRef)
    ensures InventoryKey(r).Success? <==> !Blank(r.apiVersion) && !Blank(r.kind) && !Blank(r.name)
  {
    BlankTrims(r.apiVersion);
    BlankTrims(r.kind);
    BlankTrims(r.name);
  }

  lemma BlankTrims(s: string)
    ensures TrimSpace(s) == "" <==> Blank(s)
  {
    if Blank(s) {
      TrimPadded(s, "", "");
      assert s + "" + "" == s;
    }
    var l, r := TrimSpaceSplits(s);
    assert s == l + TrimSpace(s) + r;
  }

  lemma InventoryKeyInjective(r: ResourceRef, s: ResourceRef)
    requires NulFree(r) && NulFree(s)
    requires InventoryKey(r).Success? && InventoryKey(r) == InventoryKey(s)
    ensures r == s
  {
    hide TrimSpace;
    var rp := [r.apiVersion, r.kind, r.namespace, r.name];
    var sp := [s.apiVersion, s.kind, s.namespace, s.name];
    SplitJoin(rp, NUL);
    SplitJoin(sp, NUL);
    assert rp[0] == sp[0] && rp[1] == sp[1] && rp[2] == sp[2] && rp[3] == sp[3];
  }

  /** The two packages' keys identify the same pairs of references. */
  lemma KeysAgree(r: ResourceRef, s: ResourceRef)
    requires SlashFreeParts(r) && SlashFreeParts(s) && NulFree(r) && NulFree(s)
    requires InventoryKey(r).Success? && InventoryKey(s).Success?
    ensures Key(r) == Key(s) <==> InventoryKey(r) == InventoryKey(s)
  {
    if Key(r) == Key(s) {
      KeyInjective(r, s);
    }
    if InventoryKey(r) == InventoryKey(s) {
      InventoryKeyInjective(r, s);
    }
  }

  /** The two keys of one reference, written out. */
  lemma KeysSpelled()
    ensures var r := ResourceRef("apps/v1", "Deployment", "web", "app");
            && Key(r) == "apps/v1/Deployment/web/app"
            && InventoryKey(r) == Success("apps/v1\0Deployment\0web\0app")
  {
    hide TrimSpace, Blank, Join;
    var r := ResourceRef("apps/v1", "Deployment", "web", "app");
    InventoryKeyDefined(r);
    Dense(r.apiVersion);
    Dense(r.kind);
    Dense(r.name);
    JoinFour(r.apiVersion, r.kind, r.namespace, r.name);
    assert "apps/v1" + "/" + "Deployment" + "/" + "web" + "/" + "app" == "apps/v1/Deployment/web/app";
    assert "apps/v1" + [NUL] + "Deployment" + [NUL] + "web" + [NUL] + "app" == "apps/v1\0Deployment\0web\0app";
  }

  lemma JoinFour(a: string, b: string, c: string, d: string)
    ensures Join([a, b, c, d], NUL) == a + [NUL] + b + [NUL] + c + [NUL] + d
  {
    assert [a, b, c, d][1..] == [b, c, d] && [b, c, d][1..] == [c, d] && [c, d][1..] == [d];
    assert Join([c, d], NUL) == c + [NUL] + d;
    assert Join([b, c, d], NUL) == b + [NUL] + (c + [NUL] + d);
  }

  lemma Dense(s: string)
    requires s != "" && !IsSpace(s[0])
    ensures !Blank(s)
  {
    assert s[0] in s;
  }

  // ----- Stored objects -----

  /** The API server stores one object per group, kind, namespace and name, whatever the version. */
  datatype ObjectId = ObjectId(group: string, kind: string, namespace: string, name: string)

  datatype GroupVersion = GroupVersion(group: string, version: string)

  /** schema.ParseGroupVersion. */
  function ParseGroupVersion(apiVersion: string): Option<GroupVersion> {
    if apiVersion == "" || apiVersion == "/" then Some(GroupVersion("", ""))
    else
      var parts := Split(apiVersion, '/');
      if |parts| == 1 then Some(GroupVersion("", apiVersion))
      else if |parts| == 2 then Some(GroupVersion(parts[0], parts[1]))
      else None
  }

  /** The object a reference names, if its API version can be read. */
  function ObjectOf(r: ResourceRef): Option<ObjectId> {
    match ParseGroupVersion(r.apiVersion)
    case None => None
    case Some(gv) => Some(ObjectId(gv.group, r.kind, r.namespace, r.name))
  }

  function ObjectsOf(refs: seq<ResourceRef>): set<ObjectId> {
    set r | r in refs && ObjectOf(r).Some? :: ObjectOf(r).value
  }

  function Keys(refs: seq<ResourceRef>): set<string> {
    set r | r in refs :: Key(r)
  }

  /** What every reference the controller records satisfies: the API server stores no other names. */
  predicate Recordable(r: ResourceRef) {
    SlashFreeParts(r) && ObjectOf(r).Some?
  }

  predicate AllRecordable(refs: seq<ResourceRef>) {
    forall r | r in refs :: Recordable(r)
  }

  /** Group and version are the parts before and after the slash; without a slash there is no group. */
  lemma ApiVersionReads(group: string, version: string)
    requires group != "" && version != "" && '/' !in group && '/' !in version
    ensures ParseGroupVersion(group + "/" + version) == Some(GroupVersion(group, version))
    ensures ParseGroupVersion(version) == Some(GroupVersion("", version))
  {
    SplitAtFirst(group, '/', version);
    assert group + ['/'] + version == group + "/" + version;
    assert Split(version, '/') == [version];
    assert [group] + [version] == [group, version];
    assert |group + "/" + version| > 1;
    assert '/' in version || version != "/";
  }

  /** An API version as it is written. */
  function Spelled(group: string, version: string): string {
    if group == "" then version else group + "/" + version
  }

  /** Two references name one object exactly when group, kind, namespace and name agree; the version does not
      matter. */
  lemma SameObjectExactly(r: ResourceRef, group: string, version: string, s: ResourceRef, group': string,
                          version': string)
    requires '/' !in group && '/' !in version && version != "" && r.apiVersion == Spelled(group, version)
    requires '/' !in group' && '/' !in version' && version' != "" && s.apiVersion == Spelled(group', version')
    ensures ObjectOf(r) == Some(ObjectId(group, r.kind, r.namespace, r.name))
    ensures ObjectOf(r) == ObjectOf(s)
            <==> group == group' && r.kind == s.kind && r.namespace == s.namespace && r.name == s.name
  {
    hide ParseGroupVersion;
    SpelledReads(group, version);
    SpelledReads(group', version');
  }

  lemma SpelledReads(group: string, version: string)
    requires '/' !in group && '/' !in version && version != ""
    ensures ParseGroupVersion(Spelled(group, version)) == Some(GroupVersion(group, version))
  {
    hide ParseGroupVersion;
    ApiVersionReads(if group == "" then "g" else group, version);
  }

  /** Two references to one object under different versions. */
  lemma VersionsShareObject()
    ensures var r, s := ResourceRef("v1beta1", "Widget", "web", "app"), ResourceRef("v1", "Widget", "web", "app");
            Key(r) != Key(s) && ObjectOf(r) == ObjectOf(s) && ObjectOf(r).Some?
  {
    var r, s := ResourceRef("v1beta1", "Widget", "web", "app"), ResourceRef("v1", "Widget", "web", "app");
    if Key(r) == Key(s) {
      KeyInjective(r, s);
    }
    assert Split("v1beta1", '/') == ["v1beta1"] && Split("v1", '/') == ["v1"];
  }

  // ----- Canonical lists -----

  /** Strictly increasing by key. */
  ghost predicate Canonical(refs: seq<ResourceRef>) {
    forall i, j | 0 <= i < j < |refs| :: Less(Key(refs[i]), Key(refs[j]))
  }

  /** The references by key; of two with one key the later wins. */
  function ByKey(refs: seq<ResourceRef>): map<string, ResourceRef> {
    if refs == [] then map[] else
      var last := refs[|refs| - 1];
      ByKey(refs[..|refs| - 1])[Key(last) := last]
  }

  function Insert(refs: seq<ResourceRef>, r: ResourceRef): seq<ResourceRef> {
    if refs == [] then [r]
    else if Key(r) == Key(refs[0]) then [r] + refs[1..]
    else if Less(Key(r), Key(refs[0])) then [r] + refs
    else [refs[0]] + Insert(refs[1..], r)
  }

  function InsertAll(refs: seq<ResourceRef>, more: seq<ResourceRef>): seq<ResourceRef>
    decreases more
  {
    if more == [] then refs else InsertAll(Insert(refs, more[0]), more[1..])
  }

  /** The references in key order, one per key. */
  function Sorted(refs: seq<ResourceRef>): seq<ResourceRef> {
    InsertAll([], refs)
  }

  /** Two lists merged: the union by key, in key order, the right list winning. */
  function Merge(left: seq<ResourceRef>, right: seq<ResourceRef>): seq<ResourceRef> {
    InsertAll(Sorted(left), right)
  }

  lemma {:induction false} ByKeyConcat(a: seq<ResourceRef>, b: seq<ResourceRef>)
    ensures ByKey(a + b) == ByKey(a) + ByKey(b)
  {
    hide Key;
    if b == [] {
      assert a + b == a;
    } else {
      var n := |b| - 1;
      assert (a + b)[..|a + b| - 1] == a + b[..n];
      ByKeyConcat(a, b[..n]);
    }
  }

  lemma ByKeySingle(r: ResourceRef)
    ensures ByKey([r]) == map[Key(r) := r]
  {
    assert [r][..0] == [];
  }

  lemma {:induction false} ByKeyMembers(refs: seq<ResourceRef>)
    ensures ByKey(refs).Keys == Keys(refs)
    ensures forall k | k in ByKey(refs) :: ByKey(refs)[k] in refs && Key(ByKey(refs)[k]) == k
  {
    hide Key;
    if refs != [] {
      var n := |refs| - 1;
      ByKeyMembers(refs[..n]);
      assert refs == refs[..n] + [refs[n]];
    }
  }

  lemma {:induction false} InsertCanonical(refs: seq<ResourceRef>, r: ResourceRef)
    requires Canonical(refs)
    ensures Canonical(Insert(refs, r))
    ensures ByKey(Insert(refs, r)) == ByKey(refs)[Key(r) := r]
    ensures forall s | s in Insert(refs, r) :: s == r || s in refs
  {
    hide Key, ByKey, Less;
    ByKeySingle(r);
    if refs == [] {
      ByKeyConcat([], [r]);
      assert [] + [r] == [r];
    } else {
      var head, tail := refs[0], refs[1..];
      assert refs == [head] + tail;
      ByKeyConcat([head], tail);
      ByKeySingle(head);
      assert Canonical(tail);
      if Key(r) == Key(head) {
        ByKeyConcat([r], tail);
        HeadFresh(refs);
        assert Canonical([r] + tail);
      } else if Less(Key(r), Key(head)) {
        ByKeyConcat([r], refs);
        forall j | 0 <= j < |refs|
          ensures Less(Key(r), Key(refs[j]))
        {
          if j > 0 {
            LessTransitive(Key(r), Key(head), Key(refs[j]));
          }
        }
        BelowAllIsFresh(refs, r);
      } else {
        LessTotal(Key(r), Key(head));
        InsertCanonical(tail, r);
        ByKeyConcat([head], Insert(tail, r));
        HeadBelow([head] + Insert(tail, r), head, tail, r);
      }
    }
  }

  lemma HeadFresh(refs: seq<ResourceRef>)
    requires refs != [] && Canonical(refs)
    ensures Key(refs[0]) !in ByKey(refs[1..])
  {
    hide Key, ByKey, Less;
    ByKeyMembers(refs[1..]);
    forall r | r in refs[1..]
      ensures Key(r) != Key(refs[0])
    {
      var j :| 0 <= j < |refs[1..]| && refs[1..][j] == r;
      assert r == refs[j + 1];
      LessAsymmetric(Key(refs[0]), Key(refs[j + 1]));
    }
  }

  lemma BelowAllIsFresh(refs: seq<ResourceRef>, r: ResourceRef)
    requires forall j | 0 <= j < |refs| :: Less(Key(r), Key(refs[j]))
    ensures Key(r) !in ByKey(refs)
  {
    hide Key, ByKey, Less;
    ByKeyMembers(refs);
    forall s | s in refs
      ensures Key(s) != Key(r)
    {
      var j :| 0 <= j < |refs| && refs[j] == s;
      LessAsymmetric(Key(r), Key(refs[j]));
    }
  }

  lemma HeadBelow(refs: seq<ResourceRef>, head: ResourceRef, tail: seq<ResourceRef>, r: ResourceRef)
    requires Canonical([head] + tail) && Canonical(Insert(tail, r))
    requires forall s | s in Insert(tail, r) :: s == r || s in tail
    requires Less(Key(head), Key(r))
    requires refs == [head] + Insert(tail, r)
    ensures Canonical(refs)
  {
    hide Key, Less, Insert;
    forall i, j | 0 <= i < j < |refs|
      ensures Less(Key(refs[i]), Key(refs[j]))
    {
      var s := refs[j];
      assert s in Insert(tail, r);
      if i == 0 && s != r {
        var k :| 0 <= k < |tail| && tail[k] == s;
        assert ([head] + tail)[0] == head && ([head] + tail)[k + 1] == s;
      }
    }
  }

  lemma {:induction false} InsertAllCanonical(refs: seq<ResourceRef>, more: seq<ResourceRef>)
    requires Canonical(refs)
    ensures Canonical(InsertAll(refs, more))
    ensures ByKey(InsertAll(refs, more)) == ByKey(refs) + ByKey(more)
    decreases more
  {
    hide Key, ByKey, Insert, Canonical;
    if more == [] {
      assert ByKey([]) == map[] by { ByKeyMembers([]); }
      assert ByKey(refs) + map[] == ByKey(refs);
    } else {
      var r, rest := more[0], more[1..];
      InsertCanonical(refs, r);
      InsertAllCanonical(Insert(refs, r), rest);
      assert more == [r] + rest;
      ByKeyConcat([r], rest);
      ByKeySingle(r);
    }
  }

  /** A canonical list is determined by the references it holds. */
  lemma {:induction false} CanonicalUnique(a: seq<ResourceRef>, b: seq<ResourceRef>)
    requires Canonical(a) && Canonical(b)
    requires ByKey(a) == ByKey(b)
    ensures a == b
  {
    hide Key, ByKey, Canonical, Less;
    ByKeyMembers(a);
    ByKeyMembers(b);
    assert a != [] ==> Key(a[0]) in Keys(a);
    assert b != [] ==> Key(b[0]) in Keys(b);
    if a != [] {
      SameHead(a, b);
      TailCanonical(a);
      TailCanonical(b);
      CanonicalUnique(a[1..], b[1..]);
      assert a == [a[0]] + a[1..] && b == [b[0]] + b[1..];
    }
  }

  lemma SameHead(a: seq<ResourceRef>, b: seq<ResourceRef>)
    requires a != [] && b != []
    requires Canonical(a) && Canonical(b)
    requires ByKey(a) == ByKey(b)
    ensures a[0] == b[0]
  {
    hide Key, ByKey, Canonical, Less;
    ByKeyMembers(a);
    ByKeyMembers(b);
    assert Key(a[0]) in Keys(a) && Key(b[0]) in Keys(b);
    LeastHead(a, Key(b[0]));
    LeastHead(b, Key(a[0]));
    if Key(a[0]) != Key(b[0]) {
      LessAsymmetric(Key(a[0]), Key(b[0]));
    }
    HeadMaps(a);
    HeadMaps(b);
  }

  lemma TailCanonical(refs: seq<ResourceRef>)
    requires refs != [] && Canonical(refs)
    ensures Canonical(refs[1..])
    ensures ByKey(refs[1..]) == ByKey(refs) - {Key(refs[0])}
  {
    hide Key, ByKey, Less;
    HeadFresh(refs);
    assert refs == [refs[0]] + refs[1..];
    ByKeyConcat([refs[0]], refs[1..]);
    ByKeySingle(refs[0]);
    assert ByKey(refs) == map[Key(refs[0]) := refs[0]] + ByKey(refs[1..]);
  }

  lemma LeastHead(refs: seq<ResourceRef>, k: string)
    requires refs != [] && Canonical(refs) && k in Keys(refs)
    ensures k == Key(refs[0]) || Less(Key(refs[0]), k)
  {
    hide Key, Less;
    var r :| r in refs && Key(r) == k;
    var j :| 0 <= j < |refs| && refs[j] == r;
  }

  lemma HeadMaps(refs: seq<ResourceRef>)
    requires refs != [] && Canonical(refs)
    ensures Key(refs[0]) in ByKey(refs) && ByKey(refs)[Key(refs[0])] == refs[0]
  {
    hide Key, ByKey, Less;
    HeadFresh(refs);
    assert refs == [refs[0]] + refs[1..];
    ByKeyConcat([refs[0]], refs[1..]);
    ByKeySingle(refs[0]);
  }

  lemma EmptyCanonical()
    ensures Canonical([]) && ByKey([]) == map[]
  {
  }

  /** A merge is canonical and holds the union by key, the right list winning: with CanonicalUnique this
      determines it. */
  lemma MergeIsUnion(left: seq<ResourceRef>, right: seq<ResourceRef>)
    ensures Canonical(Merge(left, right))
    ensures ByKey(Merge(left, right)) == ByKey(left) + ByKey(right)
    ensures Keys(Merge(left, right)) == Keys(left) + Keys(right)
  {
    hide Key, ByKey, Canonical, Keys;
    EmptyCanonical();
    InsertAllCanonical([], left);
    InsertAllCanonical(Sorted(left), right);
    ByKeyMembers(left);
    ByKeyMembers(right);
    ByKeyMembers(Merge(left, right));
  }

  lemma SortedIsCanonical(refs: seq<ResourceRef>)
    ensures Canonical(Sorted(refs))
    ensures ByKey(Sorted(refs)) == ByKey(refs)
    ensures Keys(Sorted(refs)) == Keys(refs)
  {
    hide Key, ByKey, Canonical, Keys;
    EmptyCanonical();
    InsertAllCanonical([], refs);
    ByKeyMembers(refs);
    ByKeyMembers(Sorted(refs));
  }

  lemma MergeAssociative(a: seq<ResourceRef>, b: seq<ResourceRef>, c: seq<ResourceRef>)
    ensures Merge(Merge(a, b), c) == Merge(a, Merge(b, c))
  {
    hide Key, ByKey, Canonical, Keys, Merge;
    MergeIsUnion(a, b);
    MergeIsUnion(b, c);
    MergeIsUnion(Merge(a, b), c);
    MergeIsUnion(a, Merge(b, c));
    CanonicalUnique(Merge(Merge(a, b), c), Merge(a, Merge(b, c)));
  }

  /** On a canonical list, merging it with itself, or with nothing, or sorting it changes nothing. */
  lemma MergeIdempotent(refs: seq<ResourceRef>)
    requires Canonical(refs)
    ensures Merge(refs, refs) == refs
    ensures Merge(refs, []) == refs
    ensures Sorted(refs) == refs
  {
    hide Key, ByKey, Canonical, Keys, Merge;
    EmptyCanonical();
    MergeIsUnion(refs, refs);
    MergeIsUnion(refs, []);
    SortedIsCanonical(refs);
    CanonicalUnique(Merge(refs, refs), refs);
    CanonicalUnique(Merge(refs, []), refs);
    CanonicalUnique(Sorted(refs), refs);
  }

  /** On recordable references keys are injective, so a merge is the plain union. */
  lemma MergeMembers(left: seq<ResourceRef>, right: seq<ResourceRef>)
    requires AllRecordable(left) && AllRecordable(right)
    ensures forall r :: r in Merge(left, right) <==> r in left || r in right
    ensures AllRecordable(Merge(left, right))
    ensures ObjectsOf(Merge(left, right)) == ObjectsOf(left) + ObjectsOf(right)
  {
    hide Key, Canonical, Merge, ObjectOf;
    hide ByKey;
    MergeIsUnion(left, right);
    var merged := Merge(left, right);
    ByKeyMembers(left + right);
    ByKeyMembers(merged);
    ByKeyConcat(left, right);
    forall r | r in merged
      ensures r in left || r in right
    {
      CanonicalMember(merged, r);
      assert ByKey(merged)[Key(r)] in left + right;
    }
    forall r | r in left + right
      ensures r in merged
    {
      assert Key(r) in Keys(left + right);
      var s := ByKey(left + right)[Key(r)];
      assert s in left + right && Key(s) == Key(r);
      KeyInjective(r, s);
    }
    forall r | r in left || r in right
      ensures r in merged
    {
      assert r in left + right;
    }
  }

  lemma CanonicalMember(refs: seq<ResourceRef>, r: ResourceRef)
    requires Canonical(refs) && r in refs
    ensures Key(r) in ByKey(refs) && ByKey(refs)[Key(r)] == r
  {
    hide Key, ByKey, Less;
    ByKeyMembers(refs);
    assert Key(r) in Keys(refs);
    var s := ByKey(refs)[Key(r)];
    var i :| 0 <= i < |refs| && refs[i] == r;
    var j :| 0 <= j < |refs| && refs[j] == s;
    if i < j {
      LessAsymmetric(Key(refs[i]), Key(refs[j]));
    } else if j < i {
      LessAsymmetric(Key(refs[j]), Key(refs[i]));
    }
  }

  lemma SortedMembers(refs: seq<ResourceRef>)
    requires AllRecordable(refs)
    ensures forall r :: r in Sorted(refs) <==> r in refs
    ensures AllRecordable(Sorted(refs))
    ensures ObjectsOf(Sorted(refs)) == ObjectsOf(refs)
  {
    hide Key, ObjectOf;
    MergeMembers(refs, []);

  }

  // ----- The merge as the controller computes it -----

  /** The keys of a map, listed in whatever order the map yields them and then sorted. */
  method SortedKeys(m: map<string, ResourceRef>) returns (keys: seq<string>)
    ensures Increasing(keys)
    ensures forall k :: k in keys <==> k in m
  {
    hide Increasing;
    keys := [];
    var unvisited := m.Keys;
    while unvisited != {}
      invariant unvisited <= m.Keys
      invariant forall k :: k in keys <==> k in m && k !in unvisited
      invariant forall a, b | 0 <= a < b < |keys| :: keys[a] != keys[b]
      decreases |unvisited|
    {
      var key :| key in unvisited;
      keys := keys + [key];
      unvisited := unvisited - {key};
    }
    SortedStringsIncrease(keys);
    keys := SortedStrings(keys);
  }

  /** mergeResourceRefs: a map filled from both lists, its keys listed in any order, sorted, looked up. */
  method MergeResourceRefs(left: seq<ResourceRef>, right: seq<ResourceRef>) returns (merged: seq<ResourceRef>)
    ensures merged == Merge(left, right)
  {
    hide Key, ByKey, Canonical, Merge, Less, Increasing;
    EmptyCanonical();
    var mergedByKey: map<string, ResourceRef> := map[];
    var i := 0;
    while i < |left|
      invariant 0 <= i <= |left|
      invariant mergedByKey == ByKey(left[..i])
    {
      ByKeySnoc(left, i);
      mergedByKey := mergedByKey[Key(left[i]) := left[i]];
      i := i + 1;
    }
    assert left[..i] == left;
    i := 0;
    while i < |right|
      invariant 0 <= i <= |right|
      invariant mergedByKey == ByKey(left) + ByKey(right[..i])
    {
      ByKeySnoc(right, i);
      mergedByKey := mergedByKey[Key(right[i]) := right[i]];
      i := i + 1;
    }
    assert right[..i] == right;
    MergeIsUnion(left, right);
    ByKeyMembers(Merge(left, right));

    var keys := SortedKeys(mergedByKey);
    merged := [];
    i := 0;
    while i < |keys|
      invariant 0 <= i == |merged| <= |keys|
      invariant forall j | 0 <= j < i :: Key(merged[j]) == keys[j] && merged[j] == mergedByKey[keys[j]]
    {
      assert keys[i] in keys;
      merged := merged + [mergedByKey[keys[i]]];
      i := i + 1;
    }
    CollectedIsMap(merged, keys, mergedByKey);
    CanonicalUnique(merged, Merge(left, right));
  }

  lemma ByKeySnoc(refs: seq<ResourceRef>, i: nat)
    requires i < |refs|
    ensures ByKey(refs[..i + 1]) == ByKey(refs[..i])[Key(refs[i]) := refs[i]]
  {
    assert refs[..i + 1][..i] == refs[..i];
  }

  lemma CollectedIsMap(refs: seq<ResourceRef>, keys: seq<string>, m: map<string, ResourceRef>)
    requires |refs| == |keys| && Increasing(keys)
    requires forall k :: k in keys <==> k in m
    requires forall j | 0 <= j < |keys| :: Key(refs[j]) == keys[j] && keys[j] in m && refs[j] == m[keys[j]]
    ensures Canonical(refs) && ByKey(refs) == m
  {
    hide Key, ByKey, Less;
    assert Canonical(refs);
    ByKeyMembers(refs);
    forall k | k in keys
      ensures k in ByKey(refs) && ByKey(refs)[k] == m[k]
    {
      var j :| 0 <= j < |keys| && keys[j] == k;
      assert refs[j] in refs;
      CanonicalMember(refs, refs[j]);
    }
    forall k | k in ByKey(refs)
      ensures k in keys
    {
      var j :| 0 <= j < |refs| && refs[j] == ByKey(refs)[k];
      assert keys[j] in keys;
    }
  }
}
