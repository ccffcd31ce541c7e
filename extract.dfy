/** `extract_json_array` (app.py lines 19-51): turns the agent's untyped
    output into the value the endpoint answers with, trying in order a
    list, a dict, and text that may hold a JSON array. `json.loads` is the
    parameter `parse`: `parse(s) == None` stands for `json.loads(s)`
    raising, `Some(v)` for it returning `v`. */
module Extract {
  import opened Values
  import opened PyText
  import opened Fences

  /** Index of the first `c` in `s` at or after `from`, or `|s|`. */
  function FindFrom(s: string, c: char, from: nat): (k: nat)
    requires from <= |s|
    ensures from <= k <= |s|
    ensures forall i :: from <= i < k ==> s[i] != c
    ensures k < |s| ==> s[k] == c
    decreases |s| - from
  {
    if from == |s| then |s|
    else if s[from] == c then from
    else FindFrom(s, c, from + 1)
  }

  /** A half-open range `[start, end)` of a string. */
  datatype Span = Span(start: nat, end: nat)

  /** Some `[` of `s` is followed, later, by some `]`. */
  predicate HasBracketPair(s: string)
  {
    exists i, j :: 0 <= i < j < |s| && s[i] == '[' && s[j] == ']'
  }

  /** The bracket search of line 38: the pattern is a `[`, then anything,
      matched lazily, then a `]`. So the leftmost match starts at the first
      `[`, and it ends at the first `]` after it. */
  function FirstBracketPair(s: string): (m: Option<Span>)
    ensures m.Some? <==> HasBracketPair(s)
    ensures m.Some? ==>
              && m.value.start < m.value.end <= |s|
              && s[m.value.start] == '[' && s[m.value.end - 1] == ']'
              && (forall k :: 0 <= k < m.value.start ==> s[k] != '[')
              && (forall k :: m.value.start < k < m.value.end - 1 ==> s[k] != ']')
  {
    var i := FindFrom(s, '[', 0);
    if i == |s| then None
    else
      var j := FindFrom(s, ']', i + 1);
      if j == |s| then None else Some(Span(i, j + 1))
  }

  /** The span that `FirstBracketPair` finds is determined by its properties. */
  lemma {:induction false} FirstBracketPairAt(s: string, i: nat, j: nat)
    requires i < j < |s| && s[i] == '[' && s[j] == ']'
    requires forall k :: 0 <= k < i ==> s[k] != '['
    requires forall k :: i < k < j ==> s[k] != ']'
    ensures FirstBracketPair(s) == Some(Span(i, j + 1))
  {
    var m := FirstBracketPair(s);
    assert HasBracketPair(s);
    assert m.value.start == i;
    assert m.value.end == j + 1;
  }

  /** The text the substitutions and strips of lines 35-36 leave. */
  function Clean(text: string): (c: string)
    ensures Stripped(c)
  {
    Strip(SubClosingFences(Strip(SubOpeningFences(text, true))))
  }

  /** Lines 37-51, applied to the cleaned text `c`. */
  function FromCleaned(c: string, parse: string -> Option<Json>): Outcome
  {
    match FirstBracketPair(c)
    case Some(m) =>
      // line 40: this json.loads is outside the try block
      (match parse(c[m.start..m.end])
       case Some(v) => Ok(v)
       case None => Raised(JsonDecodeError))
    case None =>
      (match parse(c)
       case Some(JObj(fields)) =>
         if "output" in fields then Ok(fields["output"]) else Ok(JArr([JStr(c)]))
       case Some(JArr(items)) => Ok(JArr(items))
       case _ => Ok(JArr([JStr(c)])))
  }

  /** `extract_json_array(raw)`. */
  function ExtractJsonArray(raw: Raw, parse: string -> Option<Json>): Outcome
  {
    match raw
    case RList(items) => Ok(JArr(items))
    case RDict(fields) =>
      if "output" in fields then Ok(fields["output"]) else Ok(JArr([JObj(fields)]))
    case RStr(text) => FromCleaned(Clean(text), parse)
    case ROther(shown) => FromCleaned(Clean(shown), parse)
  }

  /** The first string handed to `json.loads` for the cleaned text `c`. */
  function FirstParseInput(c: string): string
  {
    match FirstBracketPair(c)
    case Some(m) => c[m.start..m.end]
    case None => c
  }

  /** A list is returned as it is. */
  lemma {:induction false} ListReturnedUnchanged(items: seq<Json>, parse: string -> Option<Json>)
    ensures ExtractJsonArray(RList(items), parse) == Ok(JArr(items))
  {
  }

  /** A dict yields its `output` value, whatever its type, or else is wrapped
      as a one-element list. */
  lemma {:induction false} DictOutputOrWrapped(fields: map<string, Json>, parse: string -> Option<Json>)
    ensures "output" in fields ==> ExtractJsonArray(RDict(fields), parse) == Ok(fields["output"])
    ensures "output" !in fields ==> ExtractJsonArray(RDict(fields), parse) == Ok(JArr([JObj(fields)]))
  {
  }

  /** Any other object is handled as the text `str()` gives for it. */
  lemma {:induction false} OtherIsItsText(shown: string, parse: string -> Option<Json>)
    ensures ExtractJsonArray(ROther(shown), parse) == ExtractJsonArray(RStr(shown), parse)
  {
  }

  /** The cleaning, stated with the line-by-line reference definitions: every
      line loses its opening fence, then every line its closing fence, with a
      strip after each step. */
  lemma {:induction false} CleanByLines(text: string)
    ensures Clean(text) == Strip(UnfenceEndLines(Strip(UnfenceStartLines(text))))
  {
    SubOpeningFencesByLine(text);
    SubClosingFencesByLine(Strip(SubOpeningFences(text, true)));
  }

  /** A stripped text none of whose lines is fenced is already clean. */
  lemma {:induction false} CleanKeepsUnfenced(a: string)
    requires NoFenceLines(a) && Stripped(a)
    ensures Clean(a) == a
  {
    SubstitutionsKeepUnfenced(a);
    StripFixedPoint(a);
  }

  lemma {:induction false} NoBacktickSubstitutions(s: string, atLineStart: bool)
    requires forall i :: 0 <= i < |s| ==> s[i] != '`'
    ensures SubOpeningFences(s, atLineStart) == s
    ensures SubClosingFences(s) == s
    decreases |s|
  {
    if s != [] {
      assert s[0] != '`';
      NoBacktickSubstitutions(s[1..], s[0] == '\n');
      assert [s[0]] + s[1..] == s;
    }
  }

  /** A stripped text without backquotes is already clean. */
  lemma {:induction false} CleanKeepsBacktickFree(a: string)
    requires forall i :: 0 <= i < |a| ==> a[i] != '`'
    requires Stripped(a)
    ensures Clean(a) == a
  {
    NoBacktickSubstitutions(a, true);
    StripFixedPoint(a);
  }

  /** The lines of a fenced block: the opening fence, the body's lines, the
      closing fence. */
  lemma {:induction false} FencedBlockLines(opening: string, a: string, closing: string)
    requires NoNewline(opening) && NoNewline(closing)
    ensures SplitNewlines(opening + "\n" + a + "\n" + closing)
            == [opening] + SplitNewlines(a) + [closing]
  {
    assert opening + "\n" + a + "\n" + closing == opening + "\n" + (a + "\n" + closing);
    SplitNewlinesConcat(opening, a + "\n" + closing);
    SplitNewlinesConcat(a, closing);
    SingleLine(opening);
    SingleLine(closing);
  }

  /** The three opening fences line 35 removes, each as a whole line. */
  lemma {:induction false} OpeningFenceLines(opening: string)
    requires opening in {"```json", "```python", "```"}
    ensures NoNewline(opening) && UnfenceStart(opening) == []
  {
    if opening == "```json" {
      assert StartsWith(opening, "```json");
    } else if opening == "```python" {
      assert opening[3] == 'p' && "```json"[3] == 'j';
      assert !StartsWith(opening, "```json");
      assert StartsWith(opening, "```python");
    } else {
      assert !StartsWith(opening, "```json") && !StartsWith(opening, "```python");
      assert StartsWith(opening, "```");
    }
  }

  /** Removing the opening fences of a fenced block leaves its body between
      two newlines. */
  lemma {:induction false} FencedBlockOpenings(opening: string, a: string, closing: string)
    requires NoNewline(opening) && UnfenceStart(opening) == []
    requires NoNewline(closing) && UnfenceStart(closing) == []
    requires NoFenceLines(a)
    ensures SubOpeningFences(opening + "\n" + a + "\n" + closing, true) == "\n" + a + "\n"
  {
    var text := opening + "\n" + a + "\n" + closing;
    var body := SplitNewlines(a);
    FencedBlockLines(opening, a, closing);
    assert MapUnfenceStart([opening] + body + [closing]) == [""] + body + [""] by {
      MapUnfenceStartAt([opening] + body + [closing]);
    }
    JoinBetweenEmptyLines(a);
    SubOpeningFencesByLine(text);
  }

  lemma {:induction false} JoinBetweenEmptyLines(a: string)
    ensures JoinNewlines([""] + SplitNewlines(a) + [""]) == "\n" + a + "\n"
  {
    var body := SplitNewlines(a);
    JoinNewlinesConcat([""] + body, [""]);
    JoinNewlinesConcat([""], body);
    JoinSplitNewlines(a);
  }

  /** A block fenced as ```` ```json ````, ```` ```python ```` or ```` ``` ```` cleans
      to its body, provided no line of the body is fenced itself. */
  lemma {:induction false} CleanFencedBlock(opening: string, a: string)
    requires opening in {"```json", "```python", "```"}
    requires NoFenceLines(a) && Stripped(a)
    ensures Clean(opening + "\n" + a + "\n```") == a
  {
    var text := opening + "\n" + a + "\n```";
    assert text == opening + "\n" + a + "\n" + "```";
    OpeningFenceLines(opening);
    OpeningFenceLines("```");
    FencedBlockOpenings(opening, a, "```");
    var unopened := SubOpeningFences(text, true);
    assert unopened == "\n" + a + "\n";
    StripPaddingNewlines(a);
    SubstitutionsKeepUnfenced(a);
    StripFixedPoint(a);
    assert Clean(text) == Strip(SubClosingFences(Strip(unopened)));
  }

  lemma {:induction false} StripPaddingNewlines(a: string)
    requires Stripped(a)
    ensures Strip("\n" + a + "\n") == a
  {
    assert IsSpace('\n');
    StripPadding("\n", a, "\n");
  }

  /** The range handed to the parser depends only on the text up to the first
      `]` after the first `[`: no later bracket pair is ever considered. */
  lemma {:induction false} FirstBracketPairIgnoresSuffix(c: string, u: string, parse: string -> Option<Json>)
    requires HasBracketPair(c)
    ensures FirstBracketPair(c + u) == FirstBracketPair(c)
    ensures FromCleaned(c + u, parse) == FromCleaned(c, parse)
  {
    var m := FirstBracketPair(c).value;
    var s := c + u;
    assert forall k :: 0 <= k < |c| ==> s[k] == c[k];
    FirstBracketPairAt(s, m.start, m.end - 1);
    assert s[m.start..m.end] == c[m.start..m.end];
  }

  /** When the cleaned text holds a bracket pair, the parser is handed exactly
      the text from the first `[` to the first `]` after it, and the result is
      whatever the parser returns; only a parse failure there raises. */
  lemma {:induction false} BracketPairIsParsed(c: string, i: nat, j: nat, parse: string -> Option<Json>)
    requires i < j < |c| && c[i] == '[' && c[j] == ']'
    requires forall k :: 0 <= k < i ==> c[k] != '['
    requires forall k :: i < k < j ==> c[k] != ']'
    ensures FirstParseInput(c) == c[i..j + 1]
    ensures parse(c[i..j + 1]).Some? ==> FromCleaned(c, parse) == Ok(parse(c[i..j + 1]).value)
    ensures parse(c[i..j + 1]).None? ==> FromCleaned(c, parse) == Raised(JsonDecodeError)
  {
    FirstBracketPairAt(c, i, j);
  }

  /** Without a bracket pair the whole cleaned text is parsed: a dict with
      `output` yields that value, a list yields itself, and anything else or
      a parse failure yields the one-element list of the cleaned text. */
  lemma {:induction false} WholeTextIsParsed(c: string, parse: string -> Option<Json>)
    requires !HasBracketPair(c)
    ensures FirstParseInput(c) == c
    ensures FromCleaned(c, parse).Ok?
    ensures (parse(c).Some? && parse(c).value.JObj? && "output" in parse(c).value.fields)
              ==> FromCleaned(c, parse) == Ok(parse(c).value.fields["output"])
    ensures parse(c).Some? && parse(c).value.JArr? ==> FromCleaned(c, parse) == Ok(parse(c).value)
    ensures (parse(c).None? || !(parse(c).value.JArr? || (parse(c).value.JObj? && "output" in parse(c).value.fields)))
              ==> FromCleaned(c, parse) == Ok(JArr([JStr(c)]))
  {
  }

  /** Clean text without a bracket pair that the parser rejects comes back
      as the one-element list of itself. */
  lemma {:induction false} UnparsedTextWrapped(text: string, parse: string -> Option<Json>)
    requires Clean(text) == text && !HasBracketPair(text) && parse(text).None?
    ensures ExtractJsonArray(RStr(text), parse) == Ok(JArr([JStr(text)]))
  {
    TextIsCleanedFirst(text, parse);
    WholeTextIsParsed(text, parse);
  }

  /** Extraction raises only on the bracket path, and only with a decode error. */
  lemma {:induction false} RaisesOnlyOnBracketPath(text: string, parse: string -> Option<Json>)
    ensures var c := Clean(text);
            ExtractJsonArray(RStr(text), parse).Raised?
            <==> HasBracketPair(c) && parse(FirstParseInput(c)).None?
    ensures ExtractJsonArray(RStr(text), parse).Raised? ==>
              ExtractJsonArray(RStr(text), parse).error == JsonDecodeError
  {
    TextIsCleanedFirst(text, parse);
    CleanedRaisesOnlyOnBracketPath(Clean(text), parse);
  }

  lemma {:induction false} CleanedRaisesOnlyOnBracketPath(c: string, parse: string -> Option<Json>)
    ensures FromCleaned(c, parse).Raised? <==> HasBracketPair(c) && parse(FirstParseInput(c)).None?
    ensures FromCleaned(c, parse).Raised? ==> FromCleaned(c, parse).error == JsonDecodeError
  {
    if !HasBracketPair(c) {
      WholeTextIsParsed(c, parse);
    }
  }

  /** Text mode works on the cleaned text. */
  lemma {:induction false} TextIsCleanedFirst(text: string, parse: string -> Option<Json>)
    ensures ExtractJsonArray(RStr(text), parse) == FromCleaned(Clean(text), parse)
  {
  }

  /** In text mode the string handed to the parser is a slice of the cleaned
      text, with no whitespace at either end: the text is stripped before any
      parsing, and the bracket search only narrows it. */
  lemma {:induction false} ParseInputIsCleanedSlice(text: string)
    ensures var c := Clean(text);
            var p := FirstParseInput(c);
            && Stripped(p)
            && exists i, j :: 0 <= i <= j <= |c| && p == c[i..j]
  {
    ParseInputIsStrippedSlice(Clean(text));
  }

  lemma {:induction false} ParseInputIsStrippedSlice(c: string)
    requires Stripped(c)
    ensures var p := FirstParseInput(c);
            && Stripped(p)
            && exists i, j :: 0 <= i <= j <= |c| && p == c[i..j]
  {
    var p := FirstParseInput(c);
    match FirstBracketPair(c)
    case Some(m) =>
      assert p == c[m.start..m.end];
      assert p[0] == '[' && p[|p| - 1] == ']';
    case None =>
      assert p == c[0..|c|];
  }

  /** Text mode consults the parser on that one string only: two parsers that
      agree on it give the same result. */
  lemma {:induction false} ParserSeesOnlyParseInput(text: string, parse1: string -> Option<Json>,
                                                    parse2: string -> Option<Json>)
    requires parse1(FirstParseInput(Clean(text))) == parse2(FirstParseInput(Clean(text)))
    ensures ExtractJsonArray(RStr(text), parse1) == ExtractJsonArray(RStr(text), parse2)
  {
    TextIsCleanedFirst(text, parse1);
    TextIsCleanedFirst(text, parse2);
  }

  /** A markdown fence around an unfenced, stripped body changes nothing. */
  lemma {:induction false} FenceIsTransparent(opening: string, a: string, parse: string -> Option<Json>)
    requires opening in {"```json", "```python", "```"}
    requires NoFenceLines(a) && Stripped(a)
    ensures ExtractJsonArray(RStr(opening + "\n" + a + "\n```"), parse) == ExtractJsonArray(RStr(a), parse)
  {
    CleanFencedBlock(opening, a);
    CleanKeepsUnfenced(a);
    TextIsCleanedFirst(opening + "\n" + a + "\n```", parse);
    TextIsCleanedFirst(a, parse);
  }

  /** A JSON array with no `]` before its last character reaches the parser
      whole. */
  lemma {:induction false} FlatArrayIsParsed(a: string, parse: string -> Option<Json>)
    requires NoFenceLines(a) && Stripped(a)
    requires |a| >= 2 && a[0] == '[' && a[|a| - 1] == ']'
    requires forall k :: 0 <= k < |a| - 1 ==> a[k] != ']'
    ensures parse(a).Some? ==> ExtractJsonArray(RStr(a), parse) == Ok(parse(a).value)
    ensures parse(a).None? ==> ExtractJsonArray(RStr(a), parse) == Raised(JsonDecodeError)
  {
    CleanKeepsUnfenced(a);
    TextIsCleanedFirst(a, parse);
    BracketPairIsParsed(a, 0, |a| - 1, parse);
    assert a[0..|a|] == a;
  }

  /** `a` is stripped, holds no backquote, opens with `[`, and its first `]`
      is at `j`. */
  predicate OpensBareArray(a: string, j: nat)
  {
    && (forall i :: 0 <= i < |a| ==> a[i] != '`')
    && Stripped(a)
    && 0 < j < |a| && a[0] == '[' && a[j] == ']'
    && (forall k :: 0 < k < j ==> a[k] != ']')
  }

  /** Bare text starting with `[` is handed to the parser only up to its
      first `]`, whatever follows. */
  lemma {:induction false} BareTextCutAtFirstClose(a: string, j: nat, parse: string -> Option<Json>)
    requires OpensBareArray(a, j)
    ensures parse(a[..j + 1]).Some? ==> ExtractJsonArray(RStr(a), parse) == Ok(parse(a[..j + 1]).value)
    ensures parse(a[..j + 1]).None? ==> ExtractJsonArray(RStr(a), parse) == Raised(JsonDecodeError)
  {
    CleanKeepsBacktickFree(a);
    TextIsCleanedFirst(a, parse);
    BracketPairIsParsed(a, 0, j, parse);
    assert a[0..j + 1] == a[..j + 1];
  }
}
