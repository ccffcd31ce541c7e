# Answer extraction and padding of the analysis endpoint

The service answers `POST /api/` for a data-analysis agent. The request
carries a `questions.txt` upload holding a scenario followed by numbered
questions (`1)`, `2)`, …), plus optional data files. The endpoint does four
things:

- it builds a context for the agent;
- it turns the agent's output, which may be a list, a dict or text with an
  embedded JSON array possibly wrapped in a markdown fence, into a value
  (`extract_json_array`);
- it counts the numbered questions in the prompt;
- it pads a short answer list with empty strings until there is one entry
  per question.

This project models that core in Dafny and proves its properties.

- `values.dfy` (`Values`): the decoded JSON values (`Json`), the agent's
  untyped output (`Raw`: a list, a dict, a string or any other object
  shown through `str()`), and results that may be a Python exception
  (`Outcome`, `PyError`).
- `pytext.dfy` (`PyText`): the Python string primitives the code relies on.
  - `str.strip()` uses Python's whitespace set.
  - `str.splitlines()` uses its line-boundary characters.
  - `startswith` and `endswith` are included.
  - Splitting and joining on `"\n"` is how the `re` MULTILINE anchors see
    lines.
- `fences.dfy` (`Fences`): the two `re.sub` calls that remove markdown
  fences.
  - Each is a left-to-right scan that either deletes a match or keeps one
    character, as `re.sub` does.
  - Each is proved equal to a line-by-line reference definition.
- `extract.dfy` (`Extract`): `extract_json_array`.
  - The bracket search of line 38 is the first `[` and the first `]` after
    it, because that pattern is leftmost and lazy.
  - `json.loads` is the function parameter `parse`, where `None` means it
    raises.
- `questions.dfy` (`Questions`): the question count of lines 117-120, with
  the markers `f"{i})"` spelled out by a decimal printer and proved equal
  to a digit-by-digit test.
- `endpoint.dfy` (`Endpoint`): the endpoint from the moment the form is
  read.
  - It covers the missing-upload answer, the context string, extraction,
    the count, and the padding `while` loop.
  - The loop is a method proved against the function `Padded`.
  - `len()` of a value without a length raises a TypeError; `append` on a
    str or dict shorter than the count raises an AttributeError
    (`Reconcile`).
- `scenarios.dfy` (`Scenarios`): worked examples of the endpoint: concrete
  prompts and agent outputs, each as a lemma.

## Model

| member | source | states |
|---|---|---|
| Extract.ExtractJsonArray | app.py:19-51 | the dispatch on the output's type; characterised by `ListReturnedUnchanged`, `DictOutputOrWrapped`, `OtherIsItsText` and `RaisesOnlyOnBracketPath` |
| Extract.FromCleaned | app.py:37-51 | the bracket search, then the whole-text parse; characterised by `BracketPairIsParsed`, `WholeTextIsParsed` and `CleanedRaisesOnlyOnBracketPath` |
| Extract.FirstParseInput | app.py:38-43 | the string `json.loads` receives first: the bracket match, or the whole cleaned text; characterised by `ParseInputIsCleanedSlice` |
| Extract.ListReturnedUnchanged | app.py:24-25 | a list output is returned as it is |
| Extract.DictOutputOrWrapped | app.py:27-30 | a dict yields its `output` value, whatever its type, and otherwise becomes the one-element list of itself |
| Extract.OtherIsItsText | app.py:32-33 | any other object is handled exactly as the text `str()` gives for it |
| Fences.OpeningFenceLength | app.py:35 | the length removed is 0, 3, 7 or 9, never more than the text, and positive exactly when the text starts with three backquotes |
| Fences.SubOpeningFences | app.py:35 | the `re.sub` scan for opening fences; characterised by `SubOpeningFencesByLine` |
| Fences.SubClosingFences | app.py:36 | the `re.sub` scan for closing fences; characterised by `SubClosingFencesByLine` |
| Fences.SubOpeningFencesLine | app.py:35 | away from a line start the scan copies a newline-free text unchanged, whatever follows it |
| Fences.SubOpeningFencesFirstLine | app.py:35 | at a line start the scan removes the first line's opening fence, copies the rest of that line, and resumes after the newline |
| Fences.SubOpeningFencesByLine | app.py:35 | the first substitution equals removing the opening fence of every line |
| Fences.SubClosingFencesLine | app.py:36 | on one line followed by nothing or a newline, the second substitution removes exactly that line's trailing fence |
| Fences.SubClosingFencesFirstLine | app.py:36 | the second substitution handles the first line, then resumes after the newline |
| Fences.SubClosingFencesByLine | app.py:36 | the second substitution equals removing the trailing fence of every line |
| Fences.OpeningFencesKeepLineCount | app.py:35 | the opening-fence substitution neither adds nor removes a line |
| Fences.ClosingFencesKeepLineCount | app.py:36 | the closing-fence substitution neither adds nor removes a line |
| Fences.SubstitutionsKeepUnfenced | app.py:35-36 | a text with no fenced line is left unchanged by both substitutions |
| Extract.Clean | app.py:35-36 | the cleaned text has no whitespace at either end |
| Extract.CleanByLines | app.py:35-36 | cleaning is: unfence every line's start, strip, unfence every line's end, strip |
| Extract.CleanKeepsUnfenced | app.py:35-36 | a stripped text with no fenced line is already clean |
| Extract.CleanKeepsBacktickFree | app.py:35-36 | a stripped text without backquotes is already clean |
| Extract.FencedBlockOpenings | app.py:35 | removing the opening fences of a fenced block leaves its body between two newlines |
| Extract.CleanFencedBlock | app.py:35-36 | a block fenced by ```` ```json ````, ```` ```python ```` or ```` ``` ```` cleans to its body when no body line is fenced |
| Extract.FenceIsTransparent | app.py:35-51 | wrapping an unfenced, stripped body in a fence does not change the result |
| Extract.FirstBracketPair | app.py:38 | a match exists exactly when some `[` has a `]` after it; the match runs from the first `[` to the first `]` after it |
| Extract.FirstBracketPairAt | app.py:38 | those properties determine the span found |
| Extract.BracketPairIsParsed | app.py:38-40 | with a bracket pair, the parser receives exactly that range; its value is returned, and its failure raises a decode error |
| Extract.FirstBracketPairIgnoresSuffix | app.py:38-40 | text after the first pair never influences the result |
| Extract.WholeTextIsParsed | app.py:42-51 | without a bracket pair the whole cleaned text is parsed; a dict with `output` yields that value, a list itself, anything else or a failure the one-element list of the cleaned text; this path never raises |
| Extract.UnparsedTextWrapped | app.py:42-51 | clean text without a bracket pair that the parser rejects becomes the one-element list of itself |
| Extract.RaisesOnlyOnBracketPath | app.py:38-48 | extraction raises exactly when there is a bracket pair and the parser rejects it, and then only with a decode error |
| Extract.CleanedRaisesOnlyOnBracketPath | app.py:38-48 | the same, stated on the cleaned text |
| Extract.ParseInputIsCleanedSlice | app.py:35-43 | the string handed to the parser is a slice of the cleaned text with no whitespace at either end |
| Extract.ParseInputIsStrippedSlice | app.py:38-43 | for a stripped text, the string handed to the parser is a slice of it with no whitespace at either end |
| Extract.ParserSeesOnlyParseInput | app.py:38-51 | text mode consults the parser on that one string only: parsers agreeing on it give the same result |
| Extract.FlatArrayIsParsed | app.py:38-40 | an unfenced array with no `]` before its last character reaches the parser whole |
| Extract.BareTextCutAtFirstClose | app.py:38-40 | text starting with `[` reaches the parser only up to its first `]` |
| PyText.IsSpace | app.py:60 | the characters of Python's `str.isspace()`, which `strip()` removes: space, `\t` to `\r`, `\x1c` to `\x1f`, `\x85`, `\xa0`, U+1680, U+2000 to U+200A, U+2028, U+2029, U+202F, U+205F and U+3000; `StripPadding` and `StripFixedPoint` rest on it |
| PyText.IsLineBoundary | app.py:118 | the characters at which `splitlines()` ends a line: `\n`, `\r`, `\x0b`, `\x0c`, `\x1c` to `\x1e`, `\x85`, U+2028 and U+2029; `SplitLines` and `SplitLinesOfJoin` rest on it |
| PyText.StartsWith | app.py:119 | `str.startswith` with one prefix; also the test for a fence at a line start in line 35 (`OpeningFenceLength`) |
| PyText.EndsWith | app.py:36 | the text ends with the given suffix; the test for a trailing fence on a line (`UnfenceEnd`, `SubClosingFencesLine`) |
| PyText.Strip | app.py:60 | the result has no whitespace at either end and is no longer than the input |
| PyText.TrimStart | app.py:60 | the leading-whitespace removal of `strip`; characterised by `TrimStartIsSuffix` and `TrimStartShape` |
| PyText.TrimEnd | app.py:60 | the trailing-whitespace removal of `strip`; characterised by `TrimEndIsPrefix` and `TrimEndShape` |
| PyText.TrimStartIsSuffix | app.py:60 | the leading-whitespace removal of `strip` leaves a suffix of the text |
| PyText.TrimEndIsPrefix | app.py:60 | the trailing-whitespace removal of `strip` leaves a prefix of the text |
| PyText.StripFixedPoint | app.py:60 | `strip` leaves a string alone exactly when neither end is whitespace |
| PyText.StripPadding | app.py:60 | whitespace around a stripped string is exactly what `strip` removes |
| PyText.SplitLines | app.py:118 | `splitlines` gives no lines exactly for the empty text, never more lines than characters, and no line holds a boundary |
| PyText.SplitLinesOfJoin | app.py:118 | `splitlines` of newline-joined lines without boundaries, the last one not empty, gives the lines back |
| PyText.JoinSplitNewlines | app.py:35-36 | joining the lines of a split gives the text back |
| Questions.Decimal | app.py:119 | `f"{i}"`: at least one character, all of them digits; `MarkerDigits` spells it out for 1 to 20 |
| Questions.StartsWithAny | app.py:119 | `startswith` with a tuple: some element of the tuple is a prefix; `MarkedByDigits` turns it into a digit test |
| Questions.Marker | app.py:119 | `f"{i})"`; spelled out by `MarkerDigits` |
| Questions.Markers | app.py:119 | the tuple of the twenty markers for 1 to 20, in order |
| Questions.IsQuestionLine | app.py:119 | the test on one line; characterised by `QuestionLineByDigits` |
| Questions.CountWhere | app.py:117-120 | the generator sum never exceeds the number of lines; characterised by `CountIsCardinality`, `CountConcat` and `CountZeroIff` |
| Questions.CountQuestions | app.py:117-120 | the count never exceeds the number of lines |
| Questions.QuestionLineByDigits | app.py:119 | a line counts exactly when, stripped, it starts with a digit 1-9, or with 1 and a digit, or with 20, followed by `)` |
| Questions.MarkedByDigits | app.py:119 | starting with one of the twenty markers is that digit test |
| Questions.MarkerDigits | app.py:119 | the markers are `1)` to `9)`, then `1` with a digit and `)`, then `20)` |
| Questions.LargeOrZeroNotCounted | app.py:119 | a line whose stripped form starts with `0)` or with a number above 20 and `)` is not counted |
| Questions.MarkedLineCounted | app.py:119 | indentation, a marker from 1 to 20 and anything after it make a counted line |
| Questions.CountIsCardinality | app.py:117-120 | the sum equals the number of lines that pass the test |
| Questions.CountConcat | app.py:117-120 | counting is additive over consecutive groups of lines |
| Questions.CountZeroIff | app.py:117-120 | the count is zero exactly when no line passes |
| Questions.CountQuestionsOfLines | app.py:117-120 | a prompt written as newline-separated lines is counted line by line |
| Endpoint.PyLen | app.py:121 | `len` is defined exactly on strings, lists and dicts, and on a list is its length |
| Endpoint.Padded | app.py:121-122 | the padded list has length `max(len, n)`, keeps the items in front, and is filled with empty strings |
| Endpoint.Reconcile | app.py:121-122 | raises exactly when `len` is undefined (TypeError) or a string or dict is short (AttributeError); otherwise the length is at least the count; a list is padded; anything else is unchanged |
| Endpoint.Pad | app.py:121-122 | the loop computes `Reconcile` |
| Endpoint.PaddedIdempotent | app.py:121-122 | padding twice is padding once |
| Endpoint.PaddedIsAppend | app.py:121-122 | padding appends exactly `n - len` empty strings, and nothing when the list is long enough |
| Endpoint.ListAnswerPadded | app.py:114-122 | a list answer is padded to the question count and never truncated |
| Endpoint.Respond | app.py:114-122 | extraction followed by padding to the question count; characterised by `ListAnswerPadded` and `ResponseCoversQuestions` |
| Endpoint.ResponseCoversQuestions | app.py:114-124 | `len` of a non-exception response is at least the question count, and a list response keeps the extracted items in front |
| Endpoint.Analyze | app.py:55-124 | a missing upload answers the fixed error list without invoking the agent; otherwise the agent gets the context built from the stripped prompt, and the response is its extracted, padded answer |
| Endpoint.JoinComma | app.py:80-81 | `", ".join` of the file names; characterised by `JoinCommaConcat` |
| Endpoint.JoinCommaConcat | app.py:80-81 | joining a concatenation of two non-empty name lists is joining each and putting `", "` between them |
| Endpoint.FilesInfo | app.py:77-85 | the sentence naming the uploads; characterised by `FilesInfoEmpty` |
| Endpoint.Context | app.py:89-110 | the prompt line, the file sentence and the instructions; characterised by `ContextStartsWithPrompt` |
| Endpoint.FilesInfoEmpty | app.py:77-85 | the file sentence is empty exactly when no file was uploaded |
| Endpoint.ContextStartsWithPrompt | app.py:89-110 | the context opens with the prompt on a line of its own, and without uploads continues directly with the instructions |
| Scenarios.Line0NotCounted | app.py:119 | the line `0) x` is not a question: the markers start at 1 |
| Scenarios.ExampleQuestion | app.py:119 | the lines `1) What is 2+2?` and `2) Plot y=x.` are questions |
| Scenarios.Line21NotCounted | app.py:119 | the line `21) z` is not a question |
| Scenarios.ThreeQuestionsCount | app.py:117-120 | the prompt `1) a`, `2) b`, `3) c` counts 3 |
| Scenarios.ExamplePromptCount | app.py:117-120 | the example prompt with a scenario line and two questions counts 2 |
| Scenarios.FencedExampleAnswer | app.py:35-40 | the fenced example answer yields the parsed array, unpadded for two questions |
| Scenarios.UnparsableTextPadded | app.py:50-51 | text that is not JSON becomes a one-element list, padded to two entries for two questions |
| Scenarios.NestedArrayRaises | app.py:38-40 | for `[[1,2],[3]]` the parser receives `[[1,2]`, and its rejection escapes as an exception |
| Scenarios.PadTwoToFour | app.py:121-122 | two answers for four questions gain two empty strings |
| Scenarios.FiveForTwoKept | app.py:121-122 | five answers for two questions are kept, none dropped |

## Left out

- The HTTP layer is not modelled: FastAPI routing, CORS, reading the multipart form, UTF-8 decoding of the upload, and returning the JSON response. `Analyze` starts from the decoded `questions.txt` contents, or their absence.
- Saving attachments to temporary files (app.py lines 63-72) is not modelled; the names of the saved files are the parameter `fileNames`. Attachments sharing a file name being merged by the dict's keys is therefore not modelled either.
- The long fixed instruction text of lines 92-109 is the parameter `instructions`.
- The agent (`get_agent`, agents.py and the tools under tools/) is the function parameter `agent`; its behaviour is not part of this model.
- `json.loads` is the function parameter `parse`; the JSON grammar and decoder are not modelled.
- JSON numbers are integers; floating point is not modelled.
- `Pad` works on values: the agent's list being extended in place, and any aliasing of it, is not modelled.
- The regular expressions are modelled only for the three patterns of lines 35, 36 and 38, not as a general engine.

Behaviours of the code worth knowing:

- Extraction can raise: the `json.loads` of line 40 is outside the `try`, so a bracket pair the parser rejects raises a decode error (`RaisesOnlyOnBracketPath`, `NestedArrayRaises`).
- Line 51 wraps the cleaned text, after fence removal and stripping, although the comment on line 50 says raw text (`WholeTextIsParsed`).
- Lines 121-122 only pad; they never truncate a longer answer (`Scenarios.FiveForTwoKept`, `Endpoint.PaddedIsAppend`).
- A dict's `output` is returned unconverted, whatever its type (lines 28-29, `DictOutputOrWrapped`).
