/** `analyze_endpoint` (app.py lines 54-124), from the moment the form has
    been read: the guard for a missing `questions.txt` field, the context
    handed to the agent, extraction of the agent's answer, the question
    count, and the loop that pads the answer list with empty strings.

    The agent is the parameter `agent`, and `json.loads` the parameter
    `parse`. The names of the saved attachments arrive as `fileNames`, and
    the fixed instruction text as `instructions`. */
module Endpoint {
  import opened Values
  import opened PyText
  import opened Questions
  import opened Extract

  /** The answer to a request without a `questions.txt` field. */
  const MissingQuestionsAnswer: Json := JArr([JStr("Error: questions.txt required.")])

  /** Python's `len(v)` on a decoded value: the number of characters, items
      or keys, or `None` where `len` raises a TypeError. */
  function PyLen(v: Json): (n: Option<nat>)
    ensures n.Some? <==> v.JStr? || v.JArr? || v.JObj?
    ensures v.JArr? ==> n == Some(|v.items|)
  {
    match v
    case JStr(s) => Some(|s|)
    case JArr(items) => Some(|items|)
    case JObj(fields) => Some(|fields|)
    case _ => None
  }

  /** The list `xs` after the padding loop: empty strings are appended while
      it is shorter than `n`. */
  function Padded(xs: seq<Json>, n: nat): (r: seq<Json>)
    ensures |r| == if |xs| < n then n else |xs|
    ensures r[..|xs|] == xs
    ensures forall i :: |xs| <= i < |r| ==> r[i] == JStr("")
    decreases n - |xs|
  {
    if |xs| < n then Padded(xs + [JStr("")], n) else xs
  }

  /** What the padding loop makes of the extracted value `v` for `n`
      questions. The loop test takes `len(v)` first, so a value without a
      length raises a TypeError; a string or dict that is too short raises an
      AttributeError at `append`; anything long enough comes back unchanged. */
  function Reconcile(v: Json, n: nat): (r: Outcome)
    ensures r.Raised? <==> PyLen(v).None? || (PyLen(v).value < n && !v.JArr?)
    ensures r.Raised? && PyLen(v).None? ==> r.error == TypeError
    ensures r.Raised? && PyLen(v).Some? ==> r.error == AttributeError
    ensures r.Ok? ==> PyLen(r.value).Some? && PyLen(r.value).value >= n
    ensures v.JArr? ==> r == Ok(JArr(Padded(v.items, n)))
    ensures !v.JArr? && r.Ok? ==> r.value == v
  {
    match PyLen(v)
    case None => Raised(TypeError)
    case Some(k) =>
      if n <= k then Ok(v)
      else if v.JArr? then Ok(JArr(Padded(v.items, n)))
      else Raised(AttributeError)
  }

  /** The padding loop of lines 121-122, on the value `results` that
      extraction returned. */
  method Pad(results: Json, n: nat) returns (out: Outcome)
    ensures out == Reconcile(results, n)
  {
    var len := PyLen(results);
    if len.None? {
      return Raised(TypeError);
    }
    if !results.JArr? {
      if len.value < n {
        return Raised(AttributeError);
      }
      return Ok(results);
    }
    var xs := results.items;
    while |xs| < n
      invariant Padded(xs, n) == Padded(results.items, n)
      decreases n - |xs|
    {
      xs := xs + [JStr("")];
    }
    return Ok(JArr(xs));
  }

  /** What the endpoint answers once the agent has replied with `answer`
      to the stripped prompt `prompt`. */
  function Respond(answer: Raw, prompt: string, parse: string -> Option<Json>): Outcome
  {
    match ExtractJsonArray(answer, parse)
    case Raised(e) => Raised(e)
    case Ok(v) => Reconcile(v, CountQuestions(prompt))
  }

  /** `", ".join(names)`. */
  function JoinComma(names: seq<string>): string
  {
    if |names| == 0 then ""
    else if |names| == 1 then names[0]
    else names[0] + ", " + JoinComma(names[1..])
  }

  const FilesIntro: string := "The following files are available for your analysis: "
  const DatasetHint: string := "Use the file 'irs.csv' as the dataset for your analysis if referenced in the question.\n"

  /** The sentence naming the uploaded files, empty without uploads. */
  function FilesInfo(fileNames: seq<string>): string
  {
    if fileNames == [] then "" else FilesIntro + JoinComma(fileNames) + ".\n" + DatasetHint
  }

  /** The text handed to the agent: the prompt on its own line, the file
      sentence, the instructions. */
  function Context(prompt: string, fileNames: seq<string>, instructions: string): string
  {
    prompt + "\n" + FilesInfo(fileNames) + instructions
  }

  /** The endpoint's reply: the context the agent was invoked with, if it was
      invoked, and the response body. */
  datatype Reply = Reply(agentContext: Option<string>, body: Outcome)

  /** The endpoint, with `questionsTxt` the decoded contents of the
      `questions.txt` upload, if the form has one. */
  method Analyze(questionsTxt: Option<string>, fileNames: seq<string>, instructions: string,
                 agent: string -> Raw, parse: string -> Option<Json>)
    returns (reply: Reply)
    ensures questionsTxt.None? ==> reply == Reply(None, Ok(MissingQuestionsAnswer))
    ensures questionsTxt.Some? ==>
              var prompt := Strip(questionsTxt.value);
              var context := Context(prompt, fileNames, instructions);
              reply == Reply(Some(context), Respond(agent(context), prompt, parse))
  {
    if questionsTxt.None? {
      return Reply(None, Ok(MissingQuestionsAnswer));
    }
    var prompt := Strip(questionsTxt.value);
    var context := Context(prompt, fileNames, instructions);
    var answer := agent(context);
    var results := ExtractJsonArray(answer, parse);
    if results.Raised? {
      return Reply(Some(context), results);
    }
    var numQuestions := CountQuestions(prompt);
    var body := Pad(results.value, numQuestions);
    return Reply(Some(context), body);
  }

  /** Padding a list that is long enough already changes nothing, so padding
      twice is padding once. */
  lemma {:induction false} PaddedIdempotent(xs: seq<Json>, n: nat)
    ensures Padded(Padded(xs, n), n) == Padded(xs, n)
  {
  }

  /** Padding is determined by its length and contents: the original items
      in place, then empty strings up to `n`. */
  lemma {:induction false} PaddedIsAppend(xs: seq<Json>, n: nat)
    ensures Padded(xs, n) == xs + seq(if |xs| < n then n - |xs| else 0, _ => JStr(""))
  {
    var r := Padded(xs, n);
    var tail := seq(if |xs| < n then n - |xs| else 0, _ => JStr(""));
    assert r == r[..|xs|] + r[|xs|..];
    assert r[|xs|..] == tail;
  }

  /** A list answer is padded to the question count and never truncated. */
  lemma {:induction false} ListAnswerPadded(items: seq<Json>, prompt: string, parse: string -> Option<Json>)
    ensures Respond(RList(items), prompt, parse) == Ok(JArr(Padded(items, CountQuestions(prompt))))
  {
    ListReturnedUnchanged(items, parse);
  }

  /** Whenever the response is not an exception, its `len` is at least the
      question count (characters or keys when it is a str or dict), and a
      list response keeps the extracted items in front. */
  lemma {:induction false} ResponseCoversQuestions(answer: Raw, prompt: string, parse: string -> Option<Json>)
    ensures var r := Respond(answer, prompt, parse);
            r.Ok? ==> PyLen(r.value).Some? && PyLen(r.value).value >= CountQuestions(prompt)
    ensures var e := ExtractJsonArray(answer, parse);
            var r := Respond(answer, prompt, parse);
            e.Ok? && e.value.JArr? ==> r.Ok? && r.value.JArr? && r.value.items[..|e.value.items|] == e.value.items
  {
  }

  /** The file sentence is empty exactly when no file was uploaded. */
  lemma {:induction false} FilesInfoEmpty(fileNames: seq<string>)
    ensures FilesInfo(fileNames) == "" <==> fileNames == []
  {
    if fileNames != [] {
      var sentence := FilesIntro + JoinComma(fileNames) + ".\n";
      assert |sentence| >= |".\n"| == 2;
      assert |FilesInfo(fileNames)| >= |sentence|;
    }
  }

  /** Joining with `", "` distributes over a concatenation of non-empty name
      lists. */
  lemma {:induction false} JoinCommaConcat(a: seq<string>, b: seq<string>)
    requires |a| >= 1 && |b| >= 1
    ensures JoinComma(a + b) == JoinComma(a) + ", " + JoinComma(b)
  {
    if |a| == 1 {
      assert (a + b)[1..] == b;
    } else {
      assert (a + b)[1..] == a[1..] + b;
      JoinCommaConcat(a[1..], b);
    }
  }

  /** The context opens with the prompt on a line of its own. */
  lemma {:induction false} ContextStartsWithPrompt(prompt: string, fileNames: seq<string>, instructions: string)
    ensures StartsWith(Context(prompt, fileNames, instructions), prompt + "\n")
    ensures fileNames == [] ==> Context(prompt, fileNames, instructions) == prompt + "\n" + instructions
  {
    var c := Context(prompt, fileNames, instructions);
    assert c == (prompt + "\n") + (FilesInfo(fileNames) + instructions);
    FilesInfoEmpty(fileNames);
  }
}
