/** The allow/deny policy on group/version/kind triples and its textual form. */
module GvkPolicy {
  import opened Wrappers
  import opened Strings

  datatype Gvk = Gvk(group: string, version: string, kind: string)

  /** The two lists hold formatted GVKs. */
  datatype Policy = Policy(allow: set<string>, deny: set<string>)

  datatype Verdict = Allowed | MatchedDenylist | NotInAllowlist

  function Format(g: Gvk): string {
    if g.group == "" then g.version + "/" + g.kind
    else g.group + "/" + g.version + "/" + g.kind
  }

  function ParseGvk(value: string): Option<Gvk> {
    var parts := Split(TrimSpace(value), '/');
    if |parts| == 2 then
      if parts[0] == "" || parts[1] == "" then None
      else Some(Gvk("", parts[0], parts[1]))
    else if |parts| == 3 then
      if parts[0] == "" || parts[1] == "" || parts[2] == "" then None
      else Some(Gvk(parts[0], parts[1], parts[2]))
    else
      None
  }

  function Validate(p: Policy, g: Gvk): Verdict {
    var key := Format(g);
    if key in p.deny then MatchedDenylist
    else if |p.allow| > 0 && key !in p.allow then NotInAllowlist
    else Allowed
  }

  // ----- Printing and parsing one GVK -----

  predicate SlashFree(g: Gvk) {
    '/' !in g.group && '/' !in g.version && '/' !in g.kind
  }

  /** The GVKs that have a textual form which reads back. */
  predicate WellFormed(g: Gvk) {
    SlashFree(g) && g.version != "" && g.kind != "" && Trimmed(Format(g))
  }

  function Parts(g: Gvk): seq<string> {
    if g.group == "" then [g.version, g.kind] else [g.group, g.version, g.kind]
  }

  lemma FormatJoins(g: Gvk)
    ensures Format(g) == Join(Parts(g), '/')
  {
    if g.group == "" {
      assert Parts(g)[1..] == [g.kind];
    } else {
      assert Parts(g)[1..] == [g.version, g.kind];
      assert [g.version, g.kind][1..] == [g.kind];
      assert Join([g.version, g.kind], '/') == g.version + "/" + g.kind;
      assert Format(g) == g.group + "/" + (g.version + "/" + g.kind);
    }
  }

  lemma FormatSplits(g: Gvk)
    requires SlashFree(g)
    ensures Split(Format(g), '/') == Parts(g)
  {
    FormatJoins(g);
    SplitJoin(Parts(g), '/');
  }

  /** Distinct slash-free GVKs are printed differently, so membership tests on strings are tests on GVKs. */
  lemma FormatInjective(g: Gvk, h: Gvk)
    requires SlashFree(g) && SlashFree(h)
    requires Format(g) == Format(h)
    ensures g == h
  {
    FormatSplits(g);
    FormatSplits(h);
    assert |Parts(g)| == |Parts(h)|;
    assert forall i | 0 <= i < |Parts(g)| :: Parts(g)[i] == Parts(h)[i];
  }

  /** Parsing undoes printing on exactly the well-formed GVKs. */
  lemma ParseFormat(g: Gvk)
    ensures ParseGvk(Format(g)) == Some(g) <==> WellFormed(g)
  {
    if WellFormed(g) {
      WellFormedReadsBack(g);
    }
    if ParseGvk(Format(g)) == Some(g) {
      FormatParse(Format(g));
    }
  }

  lemma WellFormedReadsBack(g: Gvk)
    requires WellFormed(g)
    ensures ParseGvk(Format(g)) == Some(g)
  {
    hide TrimSpace, Split;
    TrimPadded("", Format(g), "");
    assert "" + Format(g) + "" == Format(g);
    FormatSplits(g);
  }

  /** Printing undoes parsing, up to the surrounding white space. */
  lemma FormatParse(value: string)
    requires ParseGvk(value).Some?
    ensures Format(ParseGvk(value).value) == TrimSpace(value)
    ensures WellFormed(ParseGvk(value).value)
  {
    hide TrimSpace, Split;
    var g := ParseGvk(value).value;
    var parts := Split(TrimSpace(value), '/');
    JoinSplit(TrimSpace(value), '/');
    assert parts == Parts(g);
    FormatJoins(g);
    assert forall p | p in parts :: '/' !in p;
    assert g.version in parts && g.kind in parts;
    if g.group != "" {
      assert g.group in parts;
    }
    var l, r := TrimSpaceSplits(value);
  }

  /** A kind as it is written: group, version and kind with slashes between, without a group two parts. */
  lemma GvkReads(group: string, version: string, kind: string)
    requires '/' !in group && '/' !in version && '/' !in kind && group != "" && version != "" && kind != ""
    requires Trimmed(group + "/" + version + "/" + kind) && Trimmed(version + "/" + kind)
    ensures ParseGvk(group + "/" + version + "/" + kind) == Some(Gvk(group, version, kind))
    ensures ParseGvk(version + "/" + kind) == Some(Gvk("", version, kind))
  {
    hide TrimSpace, Split, ParseGvk, Trimmed;
    var full, short := Gvk(group, version, kind), Gvk("", version, kind);
    WellFormedReadsBack(full);
    WellFormedReadsBack(short);
  }

  // ----- Comma-separated lists -----

  /** The non-blank items of a comma-separated list, without their surrounding white space. */
  function Items(value: string): set<string> {
    ItemsOf(Split(value, ','))
  }

  function ItemsOf(raws: seq<string>): set<string> {
    set raw | raw in raws && TrimSpace(raw) != "" :: TrimSpace(raw)
  }

  lemma ItemsOfSnoc(raws: seq<string>, raw: string)
    ensures ItemsOf(raws + [raw]) == ItemsOf(raws) + (if TrimSpace(raw) == "" then {} else {TrimSpace(raw)})
  {
    var more := ItemsOf(raws + [raw]);
    forall item | item in ItemsOf(raws)
      ensures item in more
    {
      var r :| r in raws && TrimSpace(r) != "" && TrimSpace(r) == item;
      assert r in raws + [raw];
    }
    if TrimSpace(raw) != "" {
      assert raw in raws + [raw];
    }
  }

  lemma ItemsOfPrefix(raws: seq<string>, i: nat)
    requires i < |raws| && TrimSpace(raws[i]) != ""
    ensures TrimSpace(raws[i]) in ItemsOf(raws)
  {
    assert raws[i] in raws;
  }

  /** What a list denotes: all of its items, provided every one of them is a GVK. */
  function ListedGvks(value: string): Option<set<string>> {
    if forall item | item in Items(value) :: ParseGvk(item).Some? then Some(Items(value)) else None
  }

  /** A comma separates: a list denotes what its two parts denote together, if both can be read. */
  lemma ListsConcat(left: string, right: string)
    requires ',' !in left
    ensures ListedGvks(left + "," + right)
            == if ListedGvks(left).Some? && ListedGvks(right).Some?
               then Some(ListedGvks(left).value + ListedGvks(right).value) else None
  {
    hide TrimSpace, ParseGvk;
    SplitAtFirst(left, ',', right);
    assert left + [','] + right == left + "," + right;
    assert Split(left, ',') == [left];
    assert Items(left + "," + right) == Items(left) + Items(right) by {
      ItemsOfConcat([left], Split(right, ','));
    }
  }

  lemma ItemsOfConcat(a: seq<string>, b: seq<string>)
    ensures ItemsOf(a + b) == ItemsOf(a) + ItemsOf(b)
  {
    hide TrimSpace;
    assert forall raw | raw in a :: raw in a + b;
    assert forall raw | raw in b :: raw in a + b;
  }

  lemma BlankHasNoItems(value: string)
    requires TrimSpace(value) == ""
    ensures Items(value) == {}
  {
    var l, r := TrimSpaceSplits(value);
    assert value == l + r;
    assert !IsSpace(',');
    assert Split(value, ',') == [value];
  }

  lemma TrimmedItem(raw: string)
    ensures TrimSpace(TrimSpace(raw)) == TrimSpace(raw)
  {
    var l, r := TrimSpaceSplits(raw);
    TrimPadded("", TrimSpace(raw), "");
    assert "" + TrimSpace(raw) + "" == TrimSpace(raw);
  }

  method ParseCsv(value: string) returns (r: Option<set<string>>)
    ensures r == ListedGvks(value)
  {
    var gvks: set<string> := {};
    if TrimSpace(value) == "" {
      BlankHasNoItems(value);
      return Some(gvks);
    }
    var raws := Split(value, ',');
    var i := 0;
    while i < |raws|
      invariant 0 <= i <= |raws|
      invariant gvks == ItemsOf(raws[..i])
      invariant forall item | item in gvks :: ParseGvk(item).Some?
    {
      assert raws[..i + 1] == raws[..i] + [raws[i]];
      ItemsOfSnoc(raws[..i], raws[i]);
      var item := TrimSpace(raws[i]);
      if item != "" {
        ItemsOfPrefix(raws, i);
        var gvk := ParseGvk(item);
        if gvk.None? {
          return None;
        }
        FormatParse(item);
        TrimmedItem(raws[i]);
        gvks := gvks + {Format(gvk.value)};
      }
      i := i + 1;
    }
    assert raws[..i] == raws;
    r := Some(gvks);
  }

  /** The policy two lists denote. */
  function PolicyOf(allowCsv: string, denyCsv: string): Option<Policy> {
    match (ListedGvks(allowCsv), ListedGvks(denyCsv))
    case (Some(allow), Some(deny)) => Some(Policy(allow, deny))
    case _ => None
  }

  method FromCsv(allowCsv: string, denyCsv: string) returns (r: Option<Policy>)
    ensures r == PolicyOf(allowCsv, denyCsv)
  {
    var allow := ParseCsv(allowCsv);
    if allow.None? {
      return None;
    }
    var deny := ParseCsv(denyCsv);
    if deny.None? {
      return None;
    }
    r := Some(Policy(allow.value, deny.value));
  }

  // ----- What a written list means -----

  /** One comma-separated position as a person writes it: padding around a GVK, or padding alone. */
  datatype Entry = Entry(left: string, gvk: Option<Gvk>, right: string)
  {
    predicate Valid() {
      && Blank(left) && Blank(right)
      && (gvk.Some? ==> WellFormed(gvk.value) && ',' !in Format(gvk.value))
    }

    function Text(): string {
      left + (if gvk.Some? then Format(gvk.value) else "") + right
    }
  }

  predicate ValidEntries(entries: seq<Entry>) {
    forall e | e in entries :: e.Valid()
  }

  function Texts(entries: seq<Entry>): seq<string> {
    seq(|entries|, i requires 0 <= i < |entries| => entries[i].Text())
  }

  function Csv(entries: seq<Entry>): string {
    Join(Texts(entries), ',')
  }

  function Written(entries: seq<Entry>): set<Gvk> {
    set e | e in entries && e.gvk.Some? :: e.gvk.value
  }

  function Formats(gvks: set<Gvk>): set<string> {
    set g | g in gvks :: Format(g)
  }

  lemma EntryText(e: Entry)
    requires e.Valid()
    ensures ',' !in e.Text()
    ensures TrimSpace(e.Text()) == if e.gvk.Some? then Format(e.gvk.value) else ""
  {
    assert !IsSpace(',');
    TrimPadded(e.left, if e.gvk.Some? then Format(e.gvk.value) else "", e.right);
  }

  lemma ItemIsWritten(entries: seq<Entry>, raw: string)
    requires ValidEntries(entries)
    requires raw in Texts(entries) && TrimSpace(raw) != ""
    ensures TrimSpace(raw) in Formats(Written(entries))
  {
    var i :| 0 <= i < |entries| && entries[i].Text() == raw;
    assert entries[i] in entries;
    EntryText(entries[i]);
    assert entries[i].gvk.value in Written(entries);
  }

  lemma WrittenIsItem(entries: seq<Entry>, g: Gvk)
    requires ValidEntries(entries)
    requires g in Written(entries)
    ensures Format(g) in ItemsOf(Texts(entries))
  {
    var i :| 0 <= i < |entries| && entries[i].gvk == Some(g);
    assert entries[i] in entries;
    EntryText(entries[i]);
    assert Texts(entries)[i] in Texts(entries);
  }

  lemma WrittenItemsOf(entries: seq<Entry>)
    requires ValidEntries(entries)
    ensures ItemsOf(Texts(entries)) == Formats(Written(entries))
  {
    var items, formats := ItemsOf(Texts(entries)), Formats(Written(entries));
    forall item | item in items
      ensures item in formats
    {
      var raw :| raw in Texts(entries) && TrimSpace(raw) != "" && TrimSpace(raw) == item;
      ItemIsWritten(entries, raw);
    }
    forall item | item in formats
      ensures item in items
    {
      var g :| g in Written(entries) && Format(g) == item;
      WrittenIsItem(entries, g);
    }
  }

  lemma WrittenItems(entries: seq<Entry>)
    requires ValidEntries(entries)
    ensures Items(Csv(entries)) == Formats(Written(entries))
  {
    if entries == [] {
      BlankHasNoItems("");
      assert Written(entries) == {};
    } else {
      var texts := Texts(entries);
      forall text | text in texts
        ensures ',' !in text
      {
        var i :| 0 <= i < |texts| && texts[i] == text;
        assert entries[i] in entries;
        EntryText(entries[i]);
      }
      SplitJoin(texts, ',');
      WrittenItemsOf(entries);
    }
  }

  /** A written list parses to exactly the GVKs written in it, whatever the padding and the empty items. */
  lemma WrittenListParses(entries: seq<Entry>)
    requires ValidEntries(entries)
    ensures ListedGvks(Csv(entries)) == Some(Formats(Written(entries)))
  {
    WrittenItems(entries);
    forall g | g in Written(entries)
      ensures ParseGvk(Format(g)).Some?
    {
      ParseFormat(g);
    }
  }

  lemma MemberByFormat(g: Gvk, gvks: set<Gvk>)
    requires SlashFree(g)
    requires forall h | h in gvks :: SlashFree(h)
    ensures Format(g) in Formats(gvks) <==> g in gvks
    ensures |Formats(gvks)| > 0 <==> gvks != {}
  {
    forall h | h in gvks && Format(g) == Format(h)
      ensures g == h
    {
      FormatInjective(g, h);
    }
    if gvks != {} {
      var h :| h in gvks;
      assert Format(h) in Formats(gvks);
    } else {
      assert Formats(gvks) == {};
    }
  }

  lemma WrittenSlashFree(entries: seq<Entry>)
    requires ValidEntries(entries)
    ensures forall h | h in Written(entries) :: SlashFree(h)
  {
  }

  /** The configured policy decides deny-then-allow membership on GVKs: denied ones are refused even
      when allowed, and an empty allow list allows everything else. */
  lemma ValidateDecides(allow: seq<Entry>, deny: seq<Entry>, g: Gvk)
    requires ValidEntries(allow) && ValidEntries(deny)
    requires SlashFree(g)
    ensures PolicyOf(Csv(allow), Csv(deny)) == Some(Policy(Formats(Written(allow)), Formats(Written(deny))))
    ensures var verdict := Validate(PolicyOf(Csv(allow), Csv(deny)).value, g);
            && (verdict == MatchedDenylist <==> g in Written(deny))
            && (verdict == NotInAllowlist <==> g !in Written(deny) && Written(allow) != {} && g !in Written(allow))
  {
    WrittenListParses(allow);
    WrittenListParses(deny);
    WrittenSlashFree(allow);
    WrittenSlashFree(deny);
    MemberByFormat(g, Written(allow));
    MemberByFormat(g, Written(deny));
  }
}
