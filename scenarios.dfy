/** Worked examples of the endpoint: concrete prompts and agent outputs,
    among them the nested array whose first `]` cuts the parsed text short.
    Each literal is examined by a lemma of its own, which hands on only the
    character facts the general lemmas need. */
module Scenarios {
  import opened Values
  import opened PyText
  import opened Fences
  import opened Extract
  import opened Questions
  import opened Endpoint

  /** Printable ASCII without the backquote, which no fence can be made of. */
  predicate PlainText(s: string)
  {
    forall i :: 0 <= i < |s| ==> ' ' <= s[i] <= '~' && s[i] != '`'
  }

  /** Plain text holds no line boundary and no newline. */
  lemma {:induction false} PlainTextIsOneLine(s: string)
    requires PlainText(s)
    ensures NoBoundary(s) && NoNewline(s)
    ensures forall i :: 0 <= i < |s| ==> s[i] != '`'
  {
  }

  /** A single line of plain text has no fenced line. */
  lemma {:induction false} PlainTextUnfenced(a: string)
    requires PlainText(a)
    ensures NoFenceLines(a)
  {
    PlainTextIsOneLine(a);
    SingleLine(a);
    assert a == [] || a[0] != '`';
    assert |a| >= 3 ==> a[|a| - 1] != '`';
  }

  /** A line that is already stripped and fails the digit test is not a
      question. */
  lemma {:induction false} NotNumbered(line: string)
    requires Stripped(line) && !NumberedPrefix(line)
    ensures !IsQuestionLine(line)
  {
    StripFixedPoint(line);
    QuestionLineByDigits(line);
  }

  /** A line that is already stripped and passes the digit test is a
      question. */
  lemma {:induction false} Numbered(line: string)
    requires Stripped(line) && NumberedPrefix(line)
    ensures IsQuestionLine(line)
  {
    StripFixedPoint(line);
    QuestionLineByDigits(line);
  }

  /** A plain line that starts with a digit 1-9 and ')' and ends in a
      non-space is a question. */
  lemma {:induction false} OneDigitQuestion(line: string)
    requires PlainText(line) && |line| >= 2
    requires '1' <= line[0] <= '9' && line[1] == ')' && line[|line| - 1] != ' '
    ensures IsQuestionLine(line) && NoBoundary(line)
  {
    PlainTextIsOneLine(line);
    Numbered(line);
  }

  /** The line "21) z" is not a question: 21 is past the last marker. */
  lemma {:induction false} Line21NotCounted(line: string)
    requires line == "21) z"
    ensures !IsQuestionLine(line)
  {
    assert line[0] == '2' && line[1] == '1' && line[|line| - 1] == 'z';
    NotNumbered(line);
  }

  /** The line "0) x" is not a question: numbering starts at 1. */
  lemma {:induction false} Line0NotCounted(line: string)
    requires line == "0) x"
    ensures !IsQuestionLine(line)
  {
    assert line[0] == '0' && line[|line| - 1] == 'x';
    NotNumbered(line);
  }

  lemma {:induction false} ScenarioLine(l: string)
    requires l == "Scenario."
    ensures !IsQuestionLine(l) && NoBoundary(l)
  {
    assert PlainText(l);
    PlainTextIsOneLine(l);
    assert l[0] == 'S' && l[|l| - 1] == '.';
    NotNumbered(l);
  }

  /** The two numbered questions of the example prompt are counted. */
  lemma {:induction false} ExampleQuestion(l: string)
    requires l == "1) What is 2+2?" || l == "2) Plot y=x."
    ensures IsQuestionLine(l) && NoBoundary(l)
  {
    assert PlainText(l);
    assert '1' <= l[0] <= '9' && l[1] == ')' && l[|l| - 1] != ' ';
    OneDigitQuestion(l);
  }

  lemma {:induction false} ShortQuestion(l: string, d: char, x: char)
    requires '1' <= d <= '9' && 'a' <= x <= 'z'
    requires l == [d, ')', ' ', x]
    ensures IsQuestionLine(l) && NoBoundary(l)
  {
    assert PlainText(l);
    OneDigitQuestion(l);
  }

  function Indicator(b: bool): nat
  {
    if b then 1 else 0
  }

  lemma {:induction false} CountThree(a: string, b: string, c: string, p: string -> bool)
    ensures CountWhere([a, b, c], p) == Indicator(p(a)) + Indicator(p(b)) + Indicator(p(c))
  {
    assert [a][..0] == [];
    assert CountWhere([a], p) == Indicator(p(a));
    assert [a, b][..1] == [a];
    assert CountWhere([a, b], p) == Indicator(p(a)) + Indicator(p(b));
    assert [a, b, c][..2] == [a, b];
  }

  lemma {:induction false} JoinThree(a: string, b: string, c: string)
    ensures JoinNewlines([a, b, c]) == a + "\n" + b + "\n" + c
  {
    assert [a, b, c][1..] == [b, c];
    assert [b, c][1..] == [c];
    assert JoinNewlines([b, c]) == b + "\n" + c;
    assert JoinNewlines([a, b, c]) == a + "\n" + (b + "\n" + c);
  }

  /** Three newline-separated lines are counted one by one. */
  lemma {:induction false} ThreeLineCount(l0: string, l1: string, l2: string)
    requires NoBoundary(l0) && NoBoundary(l1) && NoBoundary(l2) && l2 != []
    ensures CountQuestions(l0 + "\n" + l1 + "\n" + l2)
            == Indicator(IsQuestionLine(l0)) + Indicator(IsQuestionLine(l1)) + Indicator(IsQuestionLine(l2))
  {
    JoinThree(l0, l1, l2);
    CountQuestionsOfLines([l0, l1, l2]);
    CountThree(l0, l1, l2, IsQuestionLine);
  }

  /** The example prompt, a scenario line and two numbered questions, counts
      two questions. */
  lemma {:induction false} ExamplePromptCount(prompt: string, l0: string, l1: string, l2: string)
    requires l0 == "Scenario." && l1 == "1) What is 2+2?" && l2 == "2) Plot y=x."
    requires prompt == l0 + "\n" + l1 + "\n" + l2
    ensures CountQuestions(prompt) == 2
  {
    ScenarioLine(l0);
    ExampleQuestion(l1);
    ExampleQuestion(l2);
    ThreeLineCount(l0, l1, l2);
  }

  /** "1) a", "2) b" and "3) c" on three lines count three. */
  lemma {:induction false} ThreeQuestionsCount(prompt: string, l0: string, l1: string, l2: string)
    requires l0 == "1) a" && l1 == "2) b" && l2 == "3) c"
    requires prompt == l0 + "\n" + l1 + "\n" + l2
    ensures CountQuestions(prompt) == 3
  {
    ShortQuestion(l0, '1', 'a');
    ShortQuestion(l1, '2', 'b');
    ShortQuestion(l2, '3', 'c');
    ThreeLineCount(l0, l1, l2);
  }

  /** A list of two answers for four questions gains two empty strings. */
  lemma {:induction false} PadTwoToFour(a: Json, b: Json)
    ensures Reconcile(JArr([a, b]), 4) == Ok(JArr([a, b, JStr(""), JStr("")]))
  {
    PaddedIsAppend([a, b], 4);
    assert seq(2, _ => JStr("")) == [JStr(""), JStr("")];
  }

  /** A list of five answers for two questions is kept whole. */
  lemma {:induction false} FiveForTwoKept(xs: seq<Json>)
    requires |xs| == 5
    ensures Reconcile(JArr(xs), 2) == Ok(JArr(xs))
  {
  }

  /** A one-element list for two questions gains one empty string. */
  lemma {:induction false} PadOneToTwo(x: Json)
    ensures Reconcile(JArr([x]), 2) == Ok(JArr([x, JStr("")]))
  {
    PaddedIsAppend([x], 2);
    assert seq(1, _ => JStr("")) == [JStr("")];
  }

  /** A plain, stripped line of text that starts with `[`, ends with `]` and
      holds no other `]` is handed to the parser whole. */
  lemma {:induction false} PlainFlatArray(a: string, parse: string -> Option<Json>)
    requires PlainText(a) && |a| >= 2 && a[0] == '[' && a[|a| - 1] == ']'
    requires forall k :: 0 <= k < |a| - 1 ==> a[k] != ']'
    ensures ExtractJsonArray(RStr("```json\n" + a + "\n```"), parse) == ExtractJsonArray(RStr(a), parse)
    ensures parse(a).Some? ==> ExtractJsonArray(RStr(a), parse) == Ok(parse(a).value)
  {
    PlainTextUnfenced(a);
    assert "```json\n" + a + "\n```" == "```json" + "\n" + a + "\n```";
    FenceIsTransparent("```json", a, parse);
    FlatArrayIsParsed(a, parse);
  }

  lemma {:induction false} ExampleArrayText(a: string)
    requires a == "[4, \"data:image/png;base64,AAAA\"]"
    ensures PlainText(a) && |a| >= 2 && a[0] == '[' && a[|a| - 1] == ']'
    ensures forall k :: 0 <= k < |a| - 1 ==> a[k] != ']'
  {
  }

  /** The fenced example answer: the fences go, the array inside is parsed,
      and with two questions nothing is padded. */
  lemma {:induction false} FencedExampleAnswer(text: string, a: string, prompt: string, l0: string, l1: string, l2: string,
                            parse: string -> Option<Json>)
    requires a == "[4, \"data:image/png;base64,AAAA\"]"
    requires text == "```json\n" + a + "\n```"
    requires l0 == "Scenario." && l1 == "1) What is 2+2?" && l2 == "2) Plot y=x."
    requires prompt == l0 + "\n" + l1 + "\n" + l2
    requires parse(a) == Some(JArr([JNum(4), JStr("data:image/png;base64,AAAA")]))
    ensures Respond(RStr(text), prompt, parse) == Ok(JArr([JNum(4), JStr("data:image/png;base64,AAAA")]))
  {
    ExamplePromptCount(prompt, l0, l1, l2);
    ExampleArrayText(a);
    PlainFlatArray(a, parse);
  }

  /** Plain text without brackets or surrounding spaces that does not parse
      comes back as the one-element list of itself. */
  lemma {:induction false} PlainTextWrapped(text: string, parse: string -> Option<Json>)
    requires PlainText(text) && Stripped(text)
    requires forall i :: 0 <= i < |text| ==> text[i] != '['
    requires parse(text) == None
    ensures ExtractJsonArray(RStr(text), parse) == Ok(JArr([JStr(text)]))
  {
    PlainTextIsOneLine(text);
    CleanKeepsBacktickFree(text);
    UnparsedTextWrapped(text, parse);
  }

  lemma {:induction false} NotJsonText(text: string)
    requires text == "not json at all"
    ensures PlainText(text) && Stripped(text)
    ensures forall i :: 0 <= i < |text| ==> text[i] != '['
  {
    assert text[0] == 'n' && text[|text| - 1] == 'l';
  }

  /** Text that is not JSON becomes a one-element answer, and is padded to
      the two questions of the example prompt. */
  lemma {:induction false} UnparsableTextPadded(text: string, prompt: string, l0: string, l1: string, l2: string,
                             parse: string -> Option<Json>)
    requires text == "not json at all"
    requires l0 == "Scenario." && l1 == "1) What is 2+2?" && l2 == "2) Plot y=x."
    requires prompt == l0 + "\n" + l1 + "\n" + l2
    requires parse(text) == None
    ensures Respond(RStr(text), prompt, parse) == Ok(JArr([JStr(text), JStr("")]))
  {
    ExamplePromptCount(prompt, l0, l1, l2);
    NotJsonText(text);
    PlainTextWrapped(text, parse);
    PadOneToTwo(JStr(text));
  }

  lemma {:induction false} NestedArrayText(a: string)
    requires a == "[[1,2],[3]]"
    ensures OpensBareArray(a, 5)
    ensures a[..6] == "[[1,2]"
  {
  }

  /** A nested array is cut at its first `]`: for `[[1,2],[3]]` the parser
      sees `[[1,2]`, and when it rejects that text, as `json.loads` does, the
      exception escapes. */
  lemma {:induction false} NestedArrayRaises(a: string, parse: string -> Option<Json>)
    requires a == "[[1,2],[3]]"
    requires parse("[[1,2]") == None
    ensures ExtractJsonArray(RStr(a), parse) == Raised(JsonDecodeError)
  {
    NestedArrayText(a);
    BareTextCutAtFirstClose(a, 5, parse);
  }
}
