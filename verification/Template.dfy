/** Template substitution in one string: the `{{ key }}` scanner. */
module Template {
  import opened Wrappers
  import opened Strings

  type Values = map<string, string>

  // ----- Tokens -----

  predicate IsBrace(c: char) {
    c == '{' || c == '}'
  }

  predicate BraceFree(s: string) {
    forall c | c in s :: !IsBrace(c)
  }

  /** s starts with a token of length n: two braces, one or more other characters, two braces. */
  ghost predicate StartsToken(s: string, n: nat) {
    && 5 <= n <= |s|
    && s[..2] == "{{"
    && BraceFree(s[2..n - 2])
    && s[n - 2..n] == "}}"
  }

  /** The number of non-brace characters s starts with. */
  function Run(s: string): (n: nat)
    ensures n <= |s| && BraceFree(s[..n])
    ensures n < |s| ==> IsBrace(s[n])
  {
    if s == "" || IsBrace(s[0]) then 0 else
      var n := Run(s[1..]);
      assert s[..n + 1] == [s[0]] + s[1..][..n];
      n + 1
  }

  /** The length of the token s starts with, or 0: what the regular expression matches at a position. */
  function TokenLength(s: string): nat {
    if |s| >= 2 && s[0] == '{' && s[1] == '{' then
      var n := Run(s[2..]);
      if n > 0 && n + 4 <= |s| && s[n + 2] == '}' && s[n + 3] == '}' then n + 4 else 0
    else
      0
  }

  lemma TokenLengthMatches(s: string)
    ensures TokenLength(s) > 0 ==> StartsToken(s, TokenLength(s))
    ensures forall n: nat :: StartsToken(s, n) ==> n == TokenLength(s)
  {
    if |s| >= 2 && s[0] == '{' && s[1] == '{' {
      var m := Run(s[2..]);
      assert s[2..][..m] == s[2..2 + m];
    }
    forall n: nat | StartsToken(s, n)
      ensures n == TokenLength(s)
    {
      TokenLengthUnique(s, n);
    }
  }

  lemma TokenLengthUnique(s: string, n: nat)
    requires StartsToken(s, n)
    ensures n == TokenLength(s)
  {
    assert s[0] == s[..2][0] && s[1] == s[..2][1];
    assert s[n - 2] == s[n - 2..n][0] && s[n - 1] == s[n - 2..n][1];
    assert IsBrace(s[n - 2]);
    forall k | 2 <= k < n - 2
      ensures !IsBrace(s[k])
    {
      assert s[k] == s[2..n - 2][k - 2];
    }
    var m := Run(s[2..]);
    forall k | 2 <= k < m + 2
      ensures !IsBrace(s[k])
    {
      assert s[k] == s[2..][..m][k - 2];
    }
    assert m + 2 == n - 2;
  }

  // ----- Tokenization -----

  datatype Segment = Lit(c: char) | Tok(body: string)
  {
    function Source(): string {
      match this
      case Lit(c) => [c]
      case Tok(body) => "{{" + body + "}}"
    }
  }

  function Flatten(segments: seq<Segment>): string {
    if segments == [] then "" else segments[0].Source() + Flatten(segments[1..])
  }

  /** segments read s from left to right: a character stands alone only where no token starts. */
  ghost predicate Tokenizes(s: string, segments: seq<Segment>) {
    if segments == [] then s == "" else
      match segments[0]
      case Lit(c) =>
        s != "" && s[0] == c && (forall n: nat :: !StartsToken(s, n)) && Tokenizes(s[1..], segments[1..])
      case Tok(body) =>
        StartsToken(s, |body| + 4) && s[2..|body| + 2] == body && Tokenizes(s[|body| + 4..], segments[1..])
  }

  function Segments(s: string): seq<Segment> {
    if s == "" then [] else
      var n := TokenLength(s);
      if n > 0 then
        assert StartsToken(s, n) by { TokenLengthMatches(s); }
        [Tok(s[2..n - 2])] + Segments(s[n..])
      else
        [Lit(s[0])] + Segments(s[1..])
  }

  /** One step of the scan. */
  lemma SegmentsStep(s: string)
    requires s != ""
    ensures TokenLength(s) > 0 ==>
              var n := TokenLength(s);
              && StartsToken(s, n)
              && Segments(s) == [Tok(s[2..n - 2])] + Segments(s[n..])
              && Tok(s[2..n - 2]).Source() == s[..n]
    ensures TokenLength(s) == 0 ==>
              && (forall n: nat :: !StartsToken(s, n))
              && Segments(s) == [Lit(s[0])] + Segments(s[1..])
  {
    TokenLengthMatches(s);
    hide TokenLength, BraceFree;
    var n := TokenLength(s);
    if n > 0 {
      assert s[..n] == s[..2] + s[2..n - 2] + s[n - 2..n];
    }
  }

  lemma {:induction false} SegmentsTokenize(s: string)
    ensures Tokenizes(s, Segments(s))
    ensures Flatten(Segments(s)) == s
  {
    hide TokenLength, BraceFree;
    if s != "" {
      SegmentsStep(s);
      var n := TokenLength(s);
      var segments := Segments(s);
      if n > 0 {
        SegmentsTokenize(s[n..]);
        assert segments[1..] == Segments(s[n..]);
        assert s == s[..n] + s[n..];
      } else {
        SegmentsTokenize(s[1..]);
        assert segments[1..] == Segments(s[1..]);
      }
    }
  }

  /** There is only one way to read a string as text and tokens. */
  lemma {:induction false} TokenizationUnique(s: string, segments: seq<Segment>)
    requires Tokenizes(s, segments)
    ensures segments == Segments(s)
  {
    if segments != [] {
      TokenLengthMatches(s);
      match segments[0] {
        case Lit(c) =>
          TokenizationUnique(s[1..], segments[1..]);
        case Tok(body) =>
          TokenizationUnique(s[|body| + 4..], segments[1..]);
      }
    }
  }

  // ----- Substitution -----

  /** The text a segment becomes; an unresolved token stays as it is. */
  function Replacement(segment: Segment, values: Values): string {
    match segment
    case Lit(c) => [c]
    case Tok(body) => if TrimSpace(body) in values then values[TrimSpace(body)] else segment.Source()
  }

  function Substitute(segments: seq<Segment>, values: Values): string {
    if segments == [] then "" else Replacement(segments[0], values) + Substitute(segments[1..], values)
  }

  function Lost(segment: Segment, values: Values): seq<string> {
    match segment
    case Lit(_) => []
    case Tok(body) => if TrimSpace(body) in values then [] else [TrimSpace(body)]
  }

  /** The keys without a value, in order of occurrence. */
  function Missing(segments: seq<Segment>, values: Values): seq<string> {
    if segments == [] then [] else Lost(segments[0], values) + Missing(segments[1..], values)
  }

  /** Substitution as a function of the tokenization; the error lists the missing keys. */
  function Rendered(s: string, values: Values): Result<string, seq<string>> {
    var missing := Missing(Segments(s), values);
    if missing == [] then Success(Substitute(Segments(s), values)) else Failure(missing)
  }

  lemma RenderStep(s: string, values: Values)
    requires s != ""
    ensures var n := TokenLength(s);
            n > 0 ==>
              var key := TrimSpace(s[2..n - 2]);
              && Substitute(Segments(s), values)
                 == (if key in values then values[key] else s[..n]) + Substitute(Segments(s[n..]), values)
              && Missing(Segments(s), values)
                 == (if key in values then [] else [key]) + Missing(Segments(s[n..]), values)
    ensures TokenLength(s) == 0 ==>
              && Substitute(Segments(s), values) == [s[0]] + Substitute(Segments(s[1..]), values)
              && Missing(Segments(s), values) == Missing(Segments(s[1..]), values)
  {
    SegmentsStep(s);
    var n := TokenLength(s);
    var rest := Segments(if n > 0 then s[n..] else s[1..]);
    var first := if n > 0 then Tok(s[2..n - 2]) else Lit(s[0]);
    assert ([first] + rest)[1..] == rest;
  }

  /** The scan has dealt with input[..pos]. */
  ghost predicate Scanned(input: string, values: Values, pos: nat, rendered: string, missing: seq<string>) {
    && pos <= |input|
    && rendered + Substitute(Segments(input[pos..]), values) == Substitute(Segments(input), values)
    && missing + Missing(Segments(input[pos..]), values) == Missing(Segments(input), values)
  }

  lemma ScanStep(input: string, values: Values, pos: nat, rendered: string, missing: seq<string>,
                 n: nat, more: string, lost: seq<string>)
    requires Scanned(input, values, pos, rendered, missing)
    requires pos + n <= |input|
    requires Substitute(Segments(input[pos..]), values) == more + Substitute(Segments(input[pos + n..]), values)
    requires Missing(Segments(input[pos..]), values) == lost + Missing(Segments(input[pos + n..]), values)
    ensures Scanned(input, values, pos + n, rendered + more, missing + lost)
  {
    hide Segments, Substitute, Missing;
    var tail, keys := Substitute(Segments(input[pos + n..]), values), Missing(Segments(input[pos + n..]), values);
    assert rendered + more + tail == rendered + (more + tail);
    assert missing + lost + keys == missing + (lost + keys);
  }

  lemma ScanToken(input: string, values: Values, pos: nat, rendered: string, missing: seq<string>)
    requires Scanned(input, values, pos, rendered, missing)
    requires pos < |input| && TokenLength(input[pos..]) > 0
    ensures var rest, n := input[pos..], TokenLength(input[pos..]);
            && 5 <= n <= |rest|
            && var key := TrimSpace(rest[2..n - 2]);
               if key in values then Scanned(input, values, pos + n, rendered + values[key], missing)
               else Scanned(input, values, pos + n, rendered + rest[..n], missing + [key])
  {
    hide TokenLength, Segments, Substitute, Missing, TrimSpace;
    var rest, n := input[pos..], TokenLength(input[pos..]);
    TokenLengthMatches(rest);
    var key := TrimSpace(rest[2..n - 2]);
    RenderStep(rest, values);
    assert rest[n..] == input[pos + n..];
    if key in values {
      ScanStep(input, values, pos, rendered, missing, n, values[key], []);
      assert missing + [] == missing;
    } else {
      ScanStep(input, values, pos, rendered, missing, n, rest[..n], [key]);
    }
  }

  lemma ScanText(input: string, values: Values, pos: nat, rendered: string, missing: seq<string>)
    requires Scanned(input, values, pos, rendered, missing)
    requires pos < |input| && TokenLength(input[pos..]) == 0
    ensures Scanned(input, values, pos + 1, rendered + [input[pos]], missing)
  {
    hide TokenLength, Segments, Substitute, Missing;
    var rest := input[pos..];
    RenderStep(rest, values);
    assert rest[1..] == input[pos + 1..];
    ScanStep(input, values, pos, rendered, missing, 1, [input[pos]], []);
    assert missing + [] == missing;
  }

  lemma ScanDone(input: string, values: Values, rendered: string, missing: seq<string>)
    requires Scanned(input, values, |input|, rendered, missing)
    ensures Rendered(input, values) == if missing == [] then Success(rendered) else Failure(missing)
  {
    assert input[|input|..] == "";
    assert rendered + "" == rendered && missing + [] == missing;
  }

  lemma ScanStart(input: string, values: Values)
    ensures Scanned(input, values, 0, "", [])
  {
    assert input[0..] == input;
  }

  method RenderString(input: string, values: Values) returns (r: Result<string, seq<string>>)
    ensures r == Rendered(input, values)
  {
    hide Scanned;
    var missing: seq<string> := [];
    var rendered := "";
    var pos := 0;
    ScanStart(input, values);
    while pos < |input|
      invariant pos <= |input|
      invariant Scanned(input, values, pos, rendered, missing)
    {
      var n := TokenLength(input[pos..]);
      if n > 0 {
        ScanToken(input, values, pos, rendered, missing);
        var token := input[pos..][..n];
        var key := TrimSpace(token[2..n - 2]);
        assert token[2..n - 2] == input[pos..][2..n - 2];
        if key in values {
          rendered := rendered + values[key];
        } else {
          missing := missing + [key];
          rendered := rendered + token;
        }
        pos := pos + n;
      } else {
        ScanText(input, values, pos, rendered, missing);
        rendered := rendered + [input[pos]];
        pos := pos + 1;
      }
    }
    ScanDone(input, values, rendered, missing);
    if |missing| > 0 {
      return Failure(missing);
    }
    r := Success(rendered);
  }

  // ----- What rendering promises -----

  /** Any reading of the input as text and tokens gives the output: tokens are replaced once, in one
      pass, text is kept, and the call fails exactly when some token's key has no value. */
  lemma RenderedByTokenization(s: string, values: Values, segments: seq<Segment>)
    requires Tokenizes(s, segments)
    ensures Rendered(s, values).Success? <==>
            forall body :: Tok(body) in segments ==> TrimSpace(body) in values
    ensures Rendered(s, values).Success? ==> Rendered(s, values).value == Substitute(segments, values)
    ensures Rendered(s, values).Failure? ==> Rendered(s, values).error == Missing(segments, values)
  {
    TokenizationUnique(s, segments);
    NothingMissing(segments, values);
  }

  lemma {:induction false} NothingMissing(segments: seq<Segment>, values: Values)
    ensures Missing(segments, values) == [] <==>
            forall body :: Tok(body) in segments ==> TrimSpace(body) in values
  {
    if segments != [] {
      NothingMissing(segments[1..], values);
      assert segments == [segments[0]] + segments[1..];
    }
  }

  /** Rendering goes segment by segment, so nothing on one side of a cut between segments affects the
      other side, and no substituted value is looked at again. */
  lemma {:induction false} SubstituteConcat(left: seq<Segment>, right: seq<Segment>, values: Values)
    ensures Substitute(left + right, values) == Substitute(left, values) + Substitute(right, values)
    ensures Missing(left + right, values) == Missing(left, values) + Missing(right, values)
  {
    hide Replacement, Lost;
    if left == [] {
      assert left + right == right;
    } else {
      var l := left[1..];
      assert (left + right)[1..] == l + right && (left + right)[0] == left[0];
      SubstituteConcat(l, right, values);
      Associate(Replacement(left[0], values), Substitute(l, values), Substitute(right, values));
      Associate(Lost(left[0], values), Missing(l, values), Missing(right, values));
    }
  }

  lemma Associate<T>(a: seq<T>, b: seq<T>, c: seq<T>)
    ensures a + (b + c) == a + b + c
  {
  }

  /** A string without tokens is its own rendering. */
  lemma {:induction false} TextUntouched(s: string, values: Values)
    requires forall i, n: nat | 0 <= i < |s| :: !StartsToken(s[i..], n)
    ensures Rendered(s, values) == Success(s)
  {
    if s != "" {
      assert s[0..] == s;
      RenderStep(s, values);
      SegmentsStep(s);
      forall i, n: nat | 0 <= i < |s[1..]|
        ensures !StartsToken(s[1..][i..], n)
      {
        assert s[1..][i..] == s[i + 1..];
      }
      TextUntouched(s[1..], values);
      assert s == [s[0]] + s[1..];
    }
  }

  // ----- Rendering spelled out -----

  /** What the scanner takes for a token, character by character. */
  lemma TokenSpelled(s: string, n: nat)
    ensures StartsToken(s, n) <==>
            && 5 <= n <= |s|
            && s[0] == '{' && s[1] == '{' && s[n - 2] == '}' && s[n - 1] == '}'
            && forall k | 2 <= k < n - 2 :: s[k] != '{' && s[k] != '}'
  {
    if 5 <= n <= |s| {
      var body := s[2..n - 2];
      assert s[..2] == [s[0], s[1]] && s[n - 2..n] == [s[n - 2], s[n - 1]];
      assert forall k | 2 <= k < n - 2 :: s[k] == body[k - 2] && body[k - 2] in body;
      forall c | c in body
        ensures exists k :: 2 <= k < n - 2 && s[k] == c
      {
        var j :| 0 <= j < |body| && body[j] == c;
        assert s[j + 2] == c;
      }
    }
  }

  /** A token in front, spaces around its key or not, becomes its value, or is reported first. */
  lemma RenderToken(body: string, tail: string, values: Values)
    requires body != "" && '{' !in body && '}' !in body
    ensures var key := TrimSpace(body);
            Rendered("{{" + body + "}}" + tail, values)
            == match Rendered(tail, values)
               case Success(rest) => if key in values then Success(values[key] + rest) else Failure([key])
               case Failure(lost) => if key in values then Failure(lost) else Failure([key] + lost)
  {
    hide Segments, Substitute, Missing, TrimSpace;
    var s, n := "{{" + body + "}}" + tail, |body| + 4;
    assert s[2..n - 2] == body && s[n..] == tail;
    assert forall k | 2 <= k < n - 2 :: s[k] == body[k - 2] && body[k - 2] in body;
    TokenSpelled(s, n);
    TokenLengthUnique(s, n);
    RenderStep(s, values);
    var lost := Missing(Segments(tail), values);
    assert [] + lost == lost && [TrimSpace(body)] + [] == [TrimSpace(body)];
  }

  /** A character in front that starts no token stays. */
  lemma RenderText(s: string, values: Values)
    requires s != ""
    requires forall body, tail | s == "{{" + body + "}}" + tail :: body == "" || '{' in body || '}' in body
    ensures Rendered(s, values)
            == match Rendered(s[1..], values)
               case Success(rest) => Success([s[0]] + rest)
               case Failure(lost) => Failure(lost)
  {
    hide Segments, Substitute, Missing, TokenLength;
    TokenLengthMatches(s);
    if TokenLength(s) > 0 {
      var body, tail := TokenSplits(s, TokenLength(s));
      assert false;
    }
    RenderStep(s, values);
  }

  lemma TokenSplits(s: string, n: nat) returns (body: string, tail: string)
    requires StartsToken(s, n)
    ensures s == "{{" + body + "}}" + tail
    ensures body != "" && '{' !in body && '}' !in body
  {
    body, tail := s[2..n - 2], s[n..];
    assert s == s[..2] + s[2..n - 2] + s[n - 2..n] + s[n..];
    assert IsBrace('{') && IsBrace('}');
  }

  /** Text in front that opens no token stays in front. */
  lemma {:induction false} RenderPrefix(text: string, s: string, values: Values)
    requires '{' !in text
    ensures Rendered(text + s, values)
            == match Rendered(s, values)
               case Success(rest) => Success(text + rest)
               case Failure(lost) => Failure(lost)
  {
    hide Segments, Substitute, Missing, TokenLength;
    if text == "" {
      assert text + s == s;
      assert forall rest: string :: text + rest == rest;
    } else {
      RenderPrefix(text[1..], s, values);
      assert text + s == [text[0]] + (text[1..] + s) && (text + s)[1..] == text[1..] + s;
      assert forall rest: string :: text + rest == [text[0]] + (text[1..] + rest);
      assert TokenLength(text + s) == 0 by { TokenOpens(text + s); }
      RenderStep(text + s, values);
    }
  }

  lemma TokenOpens(s: string)
    requires s != "" && s[0] != '{'
    ensures TokenLength(s) == 0
  {
  }

  /** Text that opens no token is its own rendering. */
  lemma RenderPlain(text: string, values: Values)
    requires '{' !in text
    ensures Rendered(text, values) == Success(text)
  {
    RenderPrefix(text, "", values);
    assert text + "" == text;
  }

  /** Rendering is not idempotent: a value can complete a token around it. */
  lemma RenderingTwiceDiffers()
    ensures var values := map[".a" := ".b", ".b" := "x"];
            && Rendered("{{{{.a}}}}", values) == Success("{{.b}}")
            && Rendered("{{.b}}", values) == Success("x")
  {
    hide Segments, Substitute, Missing;
    var values := map[".a" := ".b", ".b" := "x"];
    assert "." + "a" == ".a" && "." + "b" == ".b" && "{{." + "a" + "}}" + "}}" == "{{.a}}}}";
    assert "{{." + "b" + "}}" + "" == "{{.b}}";
    TokenThenText("a", "}}", values);
    TextAround("{{{.a}}}}", values);
    TextAround("{{{{.a}}}}", values);
    assert "{{{.a}}}}"[1..] == "{{.a}}}}" && "{{{{.a}}}}"[1..] == "{{{.a}}}}";
    assert "{" + ("{" + (".b" + "}}")) == "{{.b}}";
    TokenThenText("b", "", values);
    assert "{{.b}}" + "" == "{{.b}}" && "x" + "" == "x";
  }

  /** A brace in front of a brace that opens a token is text. */
  lemma TextAround(s: string, values: Values)
    requires |s| > 2 && s[0] == '{' && s[1] == '{' && s[2] == '{'
    ensures Substitute(Segments(s), values) == "{" + Substitute(Segments(s[1..]), values)
    ensures Missing(Segments(s), values) == Missing(Segments(s[1..]), values)
  {
    assert Run(s[2..]) == 0;
    RenderStep(s, values);
  }

  lemma TokenThenText(name: string, tail: string, values: Values)
    requires |name| == 1 && !IsBrace(name[0]) && !IsSpace(name[0])
    requires "." + name in values
    requires tail == "" || tail == "}}"
    ensures var s := "{{." + name + "}}" + tail;
            && Substitute(Segments(s), values) == values["." + name] + tail
            && Missing(Segments(s), values) == []
  {
    var s := "{{." + name + "}}" + tail;
    OneToken(name, tail);
    TrimmedKey("." + name);
    RenderStep(s, values);
    assert s[6..] == tail;
    ClosingText(tail, values);
  }

  lemma ClosingText(tail: string, values: Values)
    requires tail == "" || tail == "}}"
    ensures Substitute(Segments(tail), values) == tail
    ensures Missing(Segments(tail), values) == []
  {
    if tail != "" {
      assert tail[1..] == "}" && "}"[1..] == "";
      RenderStep(tail, values);
      RenderStep("}", values);
      assert "}" + "" == "}";
    }
  }

  lemma OneToken(name: string, tail: string)
    requires |name| == 1 && !IsBrace(name[0])
    ensures TokenLength("{{." + name + "}}" + tail) == 6
    ensures ("{{." + name + "}}" + tail)[2..4] == "." + name
  {
    var s := "{{." + name + "}}" + tail;
    assert s[..2] == "{{" && s[4..6] == "}}";
    assert s[2..4] == "." + name;
    assert StartsToken(s, 6);
    TokenLengthUnique(s, 6);
  }

  lemma TrimmedKey(key: string)
    requires Trimmed(key)
    ensures TrimSpace(key) == key
  {
    TrimPadded("", key, "");
    assert "" + key + "" == key;
  }
}
