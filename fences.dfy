/** The two markdown-fence substitutions of `extract_json_array` (app.py
    lines 35-36): the first deletes an opening fence (three backquotes,
    optionally followed by `json` or `python`, the alternatives tried in that
    order) wherever it starts a line; the second deletes three backquotes
    wherever they end a line. Both use the MULTILINE anchors.

    Each is modelled the way `re.sub` works: a left-to-right scan that, at
    each position, either removes a match and resumes after it or keeps one
    character. Under MULTILINE, `^` holds at the start of the text and just
    after a newline, `$` at the end of the text and just before a newline.
    Beside each scan stands a line-by-line reference definition, and a
    lemma proves the two equal. */
module Fences {
  import opened PyText

  /** Length of the opening fence the first alternative that matches at a
      line start removes, or 0 when none does. */
  function OpeningFenceLength(s: string): (n: nat)
    ensures n in {0, 3, 7, 9} && n <= |s|
    ensures n > 0 <==> StartsWith(s, "```")
  {
    if StartsWith(s, "```json") then 7
    else if StartsWith(s, "```python") then 9
    else if StartsWith(s, "```") then 3
    else 0
  }

  /** The opening-fence substitution, scanning the rest `s` of the text;
      `atLineStart` says whether `^` holds at the current position. */
  function SubOpeningFences(s: string, atLineStart: bool): string
    decreases |s|
  {
    if s == [] then []
    else if atLineStart && OpeningFenceLength(s) > 0 then
      // the match ends on a character that is not a newline, so `^` fails after it
      SubOpeningFences(s[OpeningFenceLength(s)..], false)
    else [s[0]] + SubOpeningFences(s[1..], s[0] == '\n')
  }

  /** The closing-fence substitution: three backquotes followed by the end
      of the text or by a newline are deleted. */
  function SubClosingFences(s: string): string
    decreases |s|
  {
    if s == [] then []
    else if ClosingFenceAt(s) then SubClosingFences(s[3..])
    else [s[0]] + SubClosingFences(s[1..])
  }

  /** `` ```$ `` matches at the start of `s`. */
  predicate ClosingFenceAt(s: string)
  {
    StartsWith(s, "```") && (|s| == 3 || s[3] == '\n')
  }

  /** One line with its opening fence removed. */
  function UnfenceStart(line: string): string
  {
    line[OpeningFenceLength(line)..]
  }

  /** One line with a closing fence at its end removed. */
  function UnfenceEnd(line: string): string
  {
    if EndsWith(line, "```") then line[..|line| - 3] else line
  }

  function MapUnfenceStart(ls: seq<string>): (r: seq<string>)
    ensures |r| == |ls|
  {
    if ls == [] then [] else [UnfenceStart(ls[0])] + MapUnfenceStart(ls[1..])
  }

  lemma {:induction false} MapUnfenceStartAt(ls: seq<string>)
    ensures forall i :: 0 <= i < |ls| ==> MapUnfenceStart(ls)[i] == UnfenceStart(ls[i])
  {
    if ls != [] {
      MapUnfenceStartAt(ls[1..]);
    }
  }

  function MapUnfenceEnd(ls: seq<string>): (r: seq<string>)
    ensures |r| == |ls|
  {
    if ls == [] then [] else [UnfenceEnd(ls[0])] + MapUnfenceEnd(ls[1..])
  }

  lemma {:induction false} MapUnfenceEndAt(ls: seq<string>)
    ensures forall i :: 0 <= i < |ls| ==> MapUnfenceEnd(ls)[i] == UnfenceEnd(ls[i])
  {
    if ls != [] {
      MapUnfenceEndAt(ls[1..]);
    }
  }

  /** Reference definition of the first substitution: split into lines, strip
      each line's opening fence, join again. */
  function UnfenceStartLines(s: string): string
  {
    JoinNewlines(MapUnfenceStart(SplitNewlines(s)))
  }

  /** Reference definition of the second substitution. */
  function UnfenceEndLines(s: string): string
  {
    JoinNewlines(MapUnfenceEnd(SplitNewlines(s)))
  }

  /** A line none of whose ends carries a fence that either substitution removes. */
  predicate Unfenced(line: string)
  {
    OpeningFenceLength(line) == 0 && !EndsWith(line, "```")
  }

  /** Every line of `s` is `Unfenced`. */
  predicate NoFenceLines(s: string)
  {
    var ls := SplitNewlines(s);
    forall i :: 0 <= i < |ls| ==> Unfenced(ls[i])
  }

  /** A prefix without newlines matches a text exactly when it matches the
      text's first line. */
  lemma {:induction false} StartsWithFirstLine(s: string, p: string)
    requires NoNewline(p)
    ensures StartsWith(s, p) <==> StartsWith(s[..NewlineIndex(s)], p)
  {
  }

  lemma {:induction false} OpeningFenceOfFirstLine(s: string)
    ensures OpeningFenceLength(s) == OpeningFenceLength(s[..NewlineIndex(s)])
  {
    StartsWithFirstLine(s, "```json");
    StartsWithFirstLine(s, "```python");
    StartsWithFirstLine(s, "```");
  }

  /** Away from a line start the scan copies a newline-free text as it is,
      whatever follows it. */
  lemma {:induction false} SubOpeningFencesLine(l: string, t: string)
    requires NoNewline(l)
    ensures SubOpeningFences(l + t, false) == l + SubOpeningFences(t, false)
    decreases |l|
  {
    if l != [] {
      var s := l + t;
      assert s[0] == l[0] && s[0] != '\n';
      assert s[1..] == l[1..] + t;
      SubOpeningFencesLine(l[1..], t);
      assert SubOpeningFences(s, false) == [l[0]] + (l[1..] + SubOpeningFences(t, false));
      assert [l[0]] + l[1..] == l;
    } else {
      assert l + t == t;
    }
  }

  /** At a line start the scan may as well drop the opening fence first and
      continue away from a line start. */
  lemma {:induction false} SubOpeningFencesLineStart(s: string)
    ensures SubOpeningFences(s, true) == SubOpeningFences(s[OpeningFenceLength(s)..], false)
  {
  }

  /** At a line start the scan removes the first line's opening fence,
      copies the rest of that line and resumes after the newline. */
  lemma {:induction false} SubOpeningFencesFirstLine(s: string)
    ensures var k := NewlineIndex(s);
            SubOpeningFences(s, true)
            == UnfenceStart(s[..k]) + (if k == |s| then "" else "\n" + SubOpeningFences(s[k + 1..], true))
  {
    var k := NewlineIndex(s);
    var d := OpeningFenceLength(s);
    var l, t := s[..k], s[k..];
    OpeningFenceOfFirstLine(s);
    assert d <= k && UnfenceStart(l) == l[d..];
    assert NoNewline(l[d..]);
    assert s[d..] == l[d..] + t;
    SubOpeningFencesLineStart(s);
    SubOpeningFencesLine(l[d..], t);
    if k < |s| {
      assert t[0] == '\n' && t[1..] == s[k + 1..];
    } else {
      assert t == [];
    }
  }

  /** The first substitution equals its line-by-line reference definition. */
  lemma {:induction false} SubOpeningFencesByLine(s: string)
    ensures SubOpeningFences(s, true) == UnfenceStartLines(s)
    decreases |s|
  {
    var k := NewlineIndex(s);
    SubOpeningFencesFirstLine(s);
    if k < |s| {
      SubOpeningFencesByLine(s[k + 1..]);
      UnfenceStartLinesCons(s);
    } else {
      UnfenceStartLinesLast(s);
      assert s[..k] == s;
    }
  }

  lemma {:induction false} MapUnfenceStartCons(x: string, rest: seq<string>)
    ensures MapUnfenceStart([x] + rest) == [UnfenceStart(x)] + MapUnfenceStart(rest)
  {
  }

  lemma {:induction false} UnfenceStartLinesSplit(s: string)
    requires NewlineIndex(s) < |s|
    ensures var k := NewlineIndex(s);
            UnfenceStartLines(s)
            == JoinNewlines([UnfenceStart(s[..k])] + MapUnfenceStart(SplitNewlines(s[k + 1..])))
  {
    var k := NewlineIndex(s);
    SplitNewlinesCons(s);
    MapUnfenceStartCons(s[..k], SplitNewlines(s[k + 1..]));
  }

  /** The reference definition takes the first line, then the rest. */
  lemma {:induction false} UnfenceStartLinesCons(s: string)
    requires NewlineIndex(s) < |s|
    ensures var k := NewlineIndex(s);
            UnfenceStartLines(s) == UnfenceStart(s[..k]) + "\n" + UnfenceStartLines(s[k + 1..])
  {
    var k := NewlineIndex(s);
    var mapped := MapUnfenceStart(SplitNewlines(s[k + 1..]));
    UnfenceStartLinesSplit(s);
    assert |mapped| >= 1;
    JoinConsAt(UnfenceStartLines(s), UnfenceStartLines(s[k + 1..]), UnfenceStart(s[..k]), mapped);
  }

  /** On a single line the reference definition works on that line. */
  lemma {:induction false} UnfenceStartLinesLast(s: string)
    requires NewlineIndex(s) == |s|
    ensures UnfenceStartLines(s) == UnfenceStart(s)
  {
    SingleLine(s);
    assert MapUnfenceStart([s]) == [UnfenceStart(s)];
  }

  lemma {:induction false} MapUnfenceEndCons(x: string, rest: seq<string>)
    ensures MapUnfenceEnd([x] + rest) == [UnfenceEnd(x)] + MapUnfenceEnd(rest)
  {
  }

  lemma {:induction false} UnfenceEndLinesSplit(s: string)
    requires NewlineIndex(s) < |s|
    ensures var k := NewlineIndex(s);
            UnfenceEndLines(s)
            == JoinNewlines([UnfenceEnd(s[..k])] + MapUnfenceEnd(SplitNewlines(s[k + 1..])))
  {
    var k := NewlineIndex(s);
    SplitNewlinesCons(s);
    MapUnfenceEndCons(s[..k], SplitNewlines(s[k + 1..]));
  }

  /** The reference definition takes the first line, then the rest. */
  lemma {:induction false} UnfenceEndLinesCons(s: string)
    requires NewlineIndex(s) < |s|
    ensures var k := NewlineIndex(s);
            UnfenceEndLines(s) == UnfenceEnd(s[..k]) + "\n" + UnfenceEndLines(s[k + 1..])
  {
    var k := NewlineIndex(s);
    var mapped := MapUnfenceEnd(SplitNewlines(s[k + 1..]));
    UnfenceEndLinesSplit(s);
    assert |mapped| >= 1;
    JoinConsAt(UnfenceEndLines(s), UnfenceEndLines(s[k + 1..]), UnfenceEnd(s[..k]), mapped);
  }

  /** On a single line the reference definition works on that line. */
  lemma {:induction false} UnfenceEndLinesLast(s: string)
    requires NewlineIndex(s) == |s|
    ensures UnfenceEndLines(s) == UnfenceEnd(s)
  {
    SingleLine(s);
    assert MapUnfenceEnd([s]) == [UnfenceEnd(s)];
  }

  /** On one line followed by nothing or by a newline, a closing fence can
      match at the line's first character only when it is the whole line. */
  lemma {:induction false} ClosingFenceAtLineStart(l: string, t: string)
    requires NoNewline(l)
    requires t == [] || t[0] == '\n'
    requires ClosingFenceAt(l + t)
    ensures l == "```" && (l + t)[3..] == t
  {
    var s := l + t;
    assert forall i :: 0 <= i < |l| ==> s[i] == l[i];
    assert |l| < |s| ==> s[|l|] == '\n';
    assert s[..3] == "```";
    assert |l| == 3;
    assert l == s[..3];
  }

  /** Away from the closing fence, unfencing a line commutes with taking
      its first character off. */
  lemma {:induction false} UnfenceEndCons(l: string)
    requires l != [] && l != "```"
    ensures UnfenceEnd(l) == [l[0]] + UnfenceEnd(l[1..])
  {
    if EndsWith(l, "```") {
      assert l[1..][|l| - 4..] == l[|l| - 3..];
      assert [l[0]] + l[1..][..|l| - 4] == l[..|l| - 3];
    } else {
      assert |l| > 3 ==> l[1..][|l| - 4..] == l[|l| - 3..];
      assert [l[0]] + l[1..] == l;
    }
  }

  /** On one line followed by nothing or by a newline, the second
      substitution removes exactly that line's closing fence. */
  lemma {:induction false} SubClosingFencesLine(l: string, t: string)
    requires NoNewline(l)
    requires t == [] || t[0] == '\n'
    ensures SubClosingFences(l + t) == UnfenceEnd(l) + SubClosingFences(t)
    decreases |l|
  {
    var s := l + t;
    if l == [] {
      assert s == t;
    } else if ClosingFenceAt(s) {
      ClosingFenceAtLineStart(l, t);
      assert UnfenceEnd(l) == [];
    } else {
      assert l != "```";
      assert s[1..] == l[1..] + t;
      SubClosingFencesLine(l[1..], t);
      UnfenceEndCons(l);
      assert SubClosingFences(s) == [l[0]] + (UnfenceEnd(l[1..]) + SubClosingFences(t));
    }
  }

  /** The second substitution handles the first line, then resumes after
      the newline. */
  lemma {:induction false} SubClosingFencesFirstLine(s: string)
    ensures var k := NewlineIndex(s);
            SubClosingFences(s)
            == UnfenceEnd(s[..k]) + (if k == |s| then "" else "\n" + SubClosingFences(s[k + 1..]))
  {
    var k := NewlineIndex(s);
    var l, t := s[..k], s[k..];
    assert l + t == s;
    SubClosingFencesLine(l, t);
    if k < |s| {
      assert !ClosingFenceAt(t);
      assert t[1..] == s[k + 1..];
    } else {
      assert t == [];
    }
  }

  /** The second substitution equals its line-by-line reference definition. */
  lemma {:induction false} SubClosingFencesByLine(s: string)
    ensures SubClosingFences(s) == UnfenceEndLines(s)
    decreases |s|
  {
    var k := NewlineIndex(s);
    SubClosingFencesFirstLine(s);
    if k < |s| {
      SubClosingFencesByLine(s[k + 1..]);
      UnfenceEndLinesCons(s);
    } else {
      UnfenceEndLinesLast(s);
      assert s[..k] == s;
    }
  }

  /** The opening-fence substitution neither adds nor removes a line. */
  lemma {:induction false} OpeningFencesKeepLineCount(s: string)
    ensures |SplitNewlines(SubOpeningFences(s, true))| == |SplitNewlines(s)|
  {
    SubOpeningFencesByLine(s);
    MapUnfenceStartAt(SplitNewlines(s));
    UnfencedLinesSplit(MapUnfenceStart(SplitNewlines(s)));
  }

  /** The closing-fence substitution neither adds nor removes a line. */
  lemma {:induction false} ClosingFencesKeepLineCount(s: string)
    ensures |SplitNewlines(SubClosingFences(s))| == |SplitNewlines(s)|
  {
    SubClosingFencesByLine(s);
    MapUnfenceEndAt(SplitNewlines(s));
    UnfencedLinesSplit(MapUnfenceEnd(SplitNewlines(s)));
  }

  lemma {:induction false} UnfencedLinesSplit(ls: seq<string>)
    requires |ls| >= 1
    requires forall i :: 0 <= i < |ls| ==> NoNewline(ls[i])
    ensures |SplitNewlines(JoinNewlines(ls))| == |ls|
  {
    SplitJoinNewlines(ls);
  }

  /** A text with no fenced line is left alone by both substitutions. */
  lemma {:induction false} SubstitutionsKeepUnfenced(s: string)
    requires NoFenceLines(s)
    ensures SubOpeningFences(s, true) == s
    ensures SubClosingFences(s) == s
  {
    var ls := SplitNewlines(s);
    SubOpeningFencesByLine(s);
    SubClosingFencesByLine(s);
    MapUnfenceStartAt(ls);
    MapUnfenceEndAt(ls);
    assert MapUnfenceStart(ls) == ls;
    assert MapUnfenceEnd(ls) == ls;
    JoinSplitNewlines(s);
  }
}
