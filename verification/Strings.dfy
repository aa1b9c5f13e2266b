/** The Go string operations the controller relies on: order, trimming, splitting and joining.
    Strings are sequences of code points; Go's bytewise order on UTF-8 is the code point order. */
module Strings {

  // ----- Order -----

  /** Go's `<` on strings. */
  predicate Less(a: string, b: string) {
    if b == "" then false
    else if a == "" then true
    else a[0] < b[0] || (a[0] == b[0] && Less(a[1..], b[1..]))
  }

  lemma {:induction false} LessIrreflexive(a: string)
    ensures !Less(a, a)
  {
    if a != "" {
      LessIrreflexive(a[1..]);
    }
  }

  lemma {:induction false} LessTransitive(a: string, b: string, c: string)
    requires Less(a, b) && Less(b, c)
    ensures Less(a, c)
  {
    if a != "" && a[0] == b[0] && b[0] == c[0] {
      LessTransitive(a[1..], b[1..], c[1..]);
    }
  }

  lemma {:induction false} LessTotal(a: string, b: string)
    ensures Less(a, b) || a == b || Less(b, a)
  {
    if a != "" && b != "" && a[0] == b[0] {
      LessTotal(a[1..], b[1..]);
      if a[1..] == b[1..] {
        assert a == [a[0]] + a[1..] == [b[0]] + b[1..] == b;
      }
    }
  }

  lemma LessAsymmetric(a: string, b: string)
    requires Less(a, b)
    ensures !Less(b, a) && a != b
  {
    LessIrreflexive(a);
    if Less(b, a) {
      LessTransitive(a, b, a);
    }
  }

  /** The order is decided by the first character in which the strings differ; an initial part comes first. */
  lemma {:induction false} LessAtFirstDifference(a: string, b: string)
    ensures Less(a, b) <==>
            exists i :: 0 <= i <= |a| && i < |b| && a[..i] == b[..i] && (i == |a| || a[i] < b[i])
  {
    forall i | 0 < i <= |a| && i <= |b| && a[..i] == b[..i]
      ensures a[0] == b[0]
    {
      assert a[..i][0] == b[..i][0];
    }
    if a != "" && b != "" && a[0] == b[0] {
      LessAtFirstDifference(a[1..], b[1..]);
      if Less(a, b) {
        var i :| 0 <= i <= |a[1..]| && i < |b[1..]| && a[1..][..i] == b[1..][..i]
                 && (i == |a[1..]| || a[1..][i] < b[1..][i]);
        assert a[..i + 1] == [a[0]] + a[1..][..i] && b[..i + 1] == [b[0]] + b[1..][..i];
      }
      forall i | 0 <= i <= |a| && i < |b| && a[..i] == b[..i] && (i == |a| || a[i] < b[i])
        ensures Less(a, b)
      {
        if i > 0 {
          assert a[1..][..i - 1] == a[..i][1..] == b[..i][1..] == b[1..][..i - 1];
          assert i < |a| ==> a[1..][i - 1] == a[i] && b[1..][i - 1] == b[i];
        }
      }
    } else if Less(a, b) {
      assert a[..0] == b[..0];
    } else {
      assert forall i | 0 <= i <= |a| && i < |b| && a[..i] == b[..i] :: i == 0;
    }
  }

  ghost predicate Increasing(ks: seq<string>) {
    forall i, j | 0 <= i < j < |ks| :: Less(ks[i], ks[j])
  }

  function InsertString(ks: seq<string>, k: string): seq<string> {
    if ks == [] then [k]
    else if Less(ks[0], k) then [ks[0]] + InsertString(ks[1..], k)
    else [k] + ks
  }

  /** sort.Strings. */
  function SortedStrings(ks: seq<string>): seq<string> {
    if ks == [] then [] else InsertString(SortedStrings(ks[1..]), ks[0])
  }

  lemma {:induction false} InsertStringIncreases(ks: seq<string>, k: string)
    requires Increasing(ks) && k !in ks
    ensures Increasing(InsertString(ks, k))
    ensures forall x :: x in InsertString(ks, k) <==> x in ks || x == k
  {
    hide Less;
    if ks != [] {
      assert ks == [ks[0]] + ks[1..];
      if Less(ks[0], k) {
        var rest := InsertString(ks[1..], k);
        InsertStringIncreases(ks[1..], k);
        forall j | 0 <= j < |rest|
          ensures Less(ks[0], rest[j])
        {
          assert rest[j] in rest;
        }
      } else {
        LessTotal(ks[0], k);
        forall j | 0 <= j < |ks|
          ensures Less(k, ks[j])
        {
          if j > 0 {
            LessTransitive(k, ks[0], ks[j]);
          }
        }
      }
    }
  }

  lemma {:induction false} SortedStringsIncrease(ks: seq<string>)
    requires forall i, j | 0 <= i < j < |ks| :: ks[i] != ks[j]
    ensures Increasing(SortedStrings(ks))
    ensures forall x :: x in SortedStrings(ks) <==> x in ks
  {
    hide Less, InsertString;
    if ks != [] {
      SortedStringsIncrease(ks[1..]);
      assert ks == [ks[0]] + ks[1..];
      InsertStringIncreases(SortedStrings(ks[1..]), ks[0]);
    }
  }

  // ----- Trimming -----

  /** unicode.IsSpace: the White_Space code points. */
  predicate IsSpace(c: char) {
    || c == '\t' || c == '\n' || c == '\U{0B}' || c == '\U{0C}' || c == '\r' || c == ' '
    || c == '\U{85}' || c == '\U{A0}' || c == '\U{1680}'
    || '\U{2000}' <= c <= '\U{200A}'
    || c == '\U{2028}' || c == '\U{2029}' || c == '\U{202F}' || c == '\U{205F}' || c == '\U{3000}'
  }

  predicate Blank(s: string) {
    forall c | c in s :: IsSpace(c)
  }

  function TrimLeft(s: string): string {
    if s != "" && IsSpace(s[0]) then TrimLeft(s[1..]) else s
  }

  function TrimRight(s: string): string {
    if s != "" && IsSpace(s[|s| - 1]) then TrimRight(s[..|s| - 1]) else s
  }

  /** strings.TrimSpace. */
  function TrimSpace(s: string): string {
    TrimRight(TrimLeft(s))
  }

  /** No white space at either end. */
  predicate Trimmed(s: string) {
    s == "" || (!IsSpace(s[0]) && !IsSpace(s[|s| - 1]))
  }

  lemma {:induction false} TrimLeftBlank(pad: string, s: string)
    requires Blank(pad)
    requires s == "" || !IsSpace(s[0])
    ensures TrimLeft(pad + s) == s
  {
    if pad == "" {
      assert pad + s == s;
    } else {
      TrimLeftBlank(pad[1..], s);
      assert (pad + s)[1..] == pad[1..] + s;
      assert pad[0] in pad;
    }
  }

  lemma {:induction false} TrimRightBlank(s: string, pad: string)
    requires Blank(pad)
    requires s == "" || !IsSpace(s[|s| - 1])
    ensures TrimRight(s + pad) == s
  {
    if pad == "" {
      assert s + pad == s;
    } else {
      TrimRightBlank(s, pad[..|pad| - 1]);
      assert (s + pad)[..|s + pad| - 1] == s + pad[..|pad| - 1];
      assert pad[|pad| - 1] in pad;
    }
  }

  /** Padding with white space on either side is exactly what TrimSpace takes off. */
  lemma TrimPadded(left: string, s: string, right: string)
    requires Blank(left) && Blank(right) && Trimmed(s)
    ensures TrimSpace(left + s + right) == s
  {
    if s == "" {
      assert left + s + right == (left + right) + "";
      assert Blank(left + right);
      TrimLeftBlank(left + right, "");
    } else {
      TrimLeftBlank(left, s + right);
      assert left + s + right == left + (s + right);
      TrimRightBlank(s, right);
    }
  }

  lemma {:induction false} TrimLeftSuffix(s: string) returns (pad: string)
    ensures Blank(pad) && pad + TrimLeft(s) == s
    ensures TrimLeft(s) == "" || !IsSpace(TrimLeft(s)[0])
  {
    pad := "";
    if s != "" && IsSpace(s[0]) {
      var rest := TrimLeftSuffix(s[1..]);
      pad := [s[0]] + rest;
    }
  }

  lemma {:induction false} TrimRightPrefix(s: string) returns (pad: string)
    ensures Blank(pad) && TrimRight(s) + pad == s
    ensures TrimRight(s) == "" || !IsSpace(TrimRight(s)[|TrimRight(s)| - 1])
    ensures TrimRight(s) != "" ==> s != "" && TrimRight(s)[0] == s[0]
  {
    pad := "";
    if s != "" && IsSpace(s[|s| - 1]) {
      var rest := TrimRightPrefix(s[..|s| - 1]);
      pad := rest + [s[|s| - 1]];
    }
  }

  /** The converse of TrimPadded: what TrimSpace keeps is trimmed, and only white space is lost. */
  lemma TrimSpaceSplits(s: string) returns (left: string, right: string)
    ensures Blank(left) && Blank(right)
    ensures left + TrimSpace(s) + right == s
    ensures Trimmed(TrimSpace(s))
  {
    left := TrimLeftSuffix(s);
    right := TrimRightPrefix(TrimLeft(s));
  }

  /** Blanks, tabs and line ends around a text go, and nothing else that is printable does. */
  lemma TrimsAround(left: string, s: string, right: string)
    requires forall c | c in left + right :: c == ' ' || c == '\t' || c == '\n' || c == '\r'
    requires s != "" && '!' <= s[0] <= '~' && '!' <= s[|s| - 1] <= '~'
    ensures TrimSpace(left + s + right) == s
  {
    assert forall c | c in left :: c in left + right;
    assert forall c | c in right :: c in left + right;
    TrimPadded(left, s, right);
  }

  // ----- Splitting and joining -----

  function IndexOf(s: string, sep: char): (i: nat)
    requires sep in s
    ensures i < |s| && s[i] == sep && sep !in s[..i]
  {
    if s[0] == sep then 0 else 1 + IndexOf(s[1..], sep)
  }

  /** strings.Split for a one-character separator. */
  function Split(s: string, sep: char): (parts: seq<string>)
    ensures |parts| > 0
    ensures forall p | p in parts :: sep !in p
  {
    if sep in s then
      var i := IndexOf(s, sep);
      [s[..i]] + Split(s[i + 1..], sep)
    else
      [s]
  }

  /** strings.Join for a one-character separator. */
  function Join(parts: seq<string>, sep: char): string {
    if |parts| == 0 then ""
    else if |parts| == 1 then parts[0]
    else parts[0] + [sep] + Join(parts[1..], sep)
  }

  lemma {:induction false} IndexOfFirst(head: string, sep: char, tail: string)
    requires sep !in head
    ensures sep in head + [sep] + tail
    ensures IndexOf(head + [sep] + tail, sep) == |head|
  {
    var s := head + [sep] + tail;
    assert s[|head|] == sep;
    if head != "" {
      assert s[0] == head[0] && s[1..] == head[1..] + [sep] + tail;
      IndexOfFirst(head[1..], sep, tail);
    }
  }

  lemma SplitAtFirst(head: string, sep: char, tail: string)
    requires sep !in head
    ensures Split(head + [sep] + tail, sep) == [head] + Split(tail, sep)
  {
    var s := head + [sep] + tail;
    IndexOfFirst(head, sep, tail);
    assert s[..|head|] == head && s[|head| + 1..] == tail;
  }

  lemma {:induction false} SplitJoin(parts: seq<string>, sep: char)
    requires |parts| > 0
    requires forall p | p in parts :: sep !in p
    ensures Split(Join(parts, sep), sep) == parts
  {
    if |parts| == 1 {
      assert parts[0] in parts;
    } else {
      assert parts[0] in parts;
      SplitAtFirst(parts[0], sep, Join(parts[1..], sep));
      SplitJoin(parts[1..], sep);
    }
  }

  lemma {:induction false} JoinSplit(s: string, sep: char)
    ensures Join(Split(s, sep), sep) == s
  {
    if sep in s {
      var i := IndexOf(s, sep);
      JoinSplit(s[i + 1..], sep);
      var rest := Split(s[i + 1..], sep);
      var parts := [s[..i]] + rest;
      assert parts[1..] == rest;
      assert Join(parts, sep) == s[..i] + [sep] + s[i + 1..];
    }
  }

  /** Cutting at a separator that does not occur to its right is unambiguous. */
  lemma LastSeparator(a: string, b: string, a': string, b': string, sep: char)
    requires sep !in b && sep !in b'
    requires a + [sep] + b == a' + [sep] + b'
    ensures a == a' && b == b'
  {
    var s := a + [sep] + b;
    assert s[|a|] == sep && s[|a'|] == sep;
    assert forall k | |a| < k < |s| :: s[k] == b[k - |a| - 1];
    assert forall k | |a'| < k < |s| :: s[k] == b'[k - |a'| - 1];
    assert |a| == |a'|;
    assert a == s[..|a|] && a' == s[..|a|];
    assert b == s[|a| + 1..] && b' == s[|a| + 1..];
  }
}
