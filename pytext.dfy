/** The few Python string primitives the pipeline relies on: `str.strip()`,
    `str.startswith`, `str.endswith`, `str.splitlines()`, and splitting and
    joining on the newline character as the `re` module's MULTILINE anchors
    see lines. */
module PyText {

  /** Python's `str.isspace()` for one character: the characters `str.strip()`
      with no argument removes. */
  predicate IsSpace(c: char)
  {
    c == ' ' || ('\t' <= c <= '\r') || ('\U{1C}' <= c <= '\U{1F}')
    || c == '\U{85}' || c == '\U{A0}' || c == '\U{1680}'
    || ('\U{2000}' <= c <= '\U{200A}') || c == '\U{2028}' || c == '\U{2029}'
    || c == '\U{202F}' || c == '\U{205F}' || c == '\U{3000}'
  }

  /** The characters at which `str.splitlines()` ends a line. */
  predicate IsLineBoundary(c: char)
  {
    c == '\n' || c == '\r' || c == '\U{0B}' || c == '\U{0C}'
    || ('\U{1C}' <= c <= '\U{1E}') || c == '\U{85}' || c == '\U{2028}' || c == '\U{2029}'
  }

  /** `s.startswith(p)`. */
  predicate StartsWith(s: string, p: string)
  {
    |p| <= |s| && s[..|p|] == p
  }

  /** `s.endswith(p)`. */
  predicate EndsWith(s: string, p: string)
  {
    |p| <= |s| && s[|s| - |p|..] == p
  }

  /** True when neither end of `s` is whitespace: the strings `Strip` returns. */
  predicate Stripped(s: string)
  {
    s == [] || (!IsSpace(s[0]) && !IsSpace(s[|s| - 1]))
  }

  /** `s.lstrip()`: the suffix left after the leading whitespace. */
  function TrimStart(s: string): (r: string)
    ensures |r| <= |s|
  {
    if s != [] && IsSpace(s[0]) then TrimStart(s[1..]) else s
  }

  /** What `TrimStart` leaves is a suffix of its input. */
  lemma {:induction false} TrimStartIsSuffix(s: string)
    ensures TrimStart(s) == s[|s| - |TrimStart(s)|..]
  {
    if s != [] && IsSpace(s[0]) {
      var t := s[1..];
      TrimStartIsSuffix(t);
      assert t[|t| - |TrimStart(t)|..] == s[|s| - |TrimStart(s)|..];
    }
  }

  /** `TrimStart` removes whitespace only, and all of it. */
  lemma {:induction false} TrimStartShape(s: string)
    ensures var r := TrimStart(s);
            && (forall i :: 0 <= i < |s| - |r| ==> IsSpace(s[i]))
            && (r == [] || !IsSpace(r[0]))
  {
    if s != [] && IsSpace(s[0]) {
      var t := s[1..];
      TrimStartShape(t);
      assert TrimStart(s) == TrimStart(t);
      forall i | 1 <= i < |s| - |TrimStart(s)|
        ensures IsSpace(s[i])
      {
        assert s[i] == t[i - 1];
      }
    }
  }

  /** `s.rstrip()`: the prefix left before the trailing whitespace. */
  function TrimEnd(s: string): (r: string)
    ensures |r| <= |s|
  {
    if s != [] && IsSpace(s[|s| - 1]) then TrimEnd(s[..|s| - 1]) else s
  }

  /** What `TrimEnd` leaves is a prefix of its input. */
  lemma {:induction false} TrimEndIsPrefix(s: string)
    ensures TrimEnd(s) == s[..|TrimEnd(s)|]
  {
    if s != [] && IsSpace(s[|s| - 1]) {
      var t := s[..|s| - 1];
      TrimEndIsPrefix(t);
      assert t[..|TrimEnd(t)|] == s[..|TrimEnd(s)|];
    }
  }

  /** `TrimEnd` removes whitespace only, and all of it. */
  lemma {:induction false} TrimEndShape(s: string)
    ensures var r := TrimEnd(s);
            && (forall i :: |r| <= i < |s| ==> IsSpace(s[i]))
            && (r == [] || !IsSpace(r[|r| - 1]))
            && (r != [] ==> r[0] == s[0])
  {
    if s != [] && IsSpace(s[|s| - 1]) {
      TrimEndShape(s[..|s| - 1]);
    }
  }

  /** `s.strip()`. */
  function Strip(s: string): (r: string)
    ensures Stripped(r) && |r| <= |s|
  {
    var t := TrimStart(s);
    TrimStartShape(s);
    TrimEndShape(t);
    TrimEnd(t)
  }

  /** `Strip` leaves a string alone exactly when neither end is whitespace. */
  lemma {:induction false} StripFixedPoint(s: string)
    ensures Strip(s) == s <==> Stripped(s)
  {
    if Stripped(s) {
      assert TrimStart(s) == s;
      assert TrimEnd(s) == s;
    }
  }

  /** Whitespace around a stripped string is all that `Strip` removes. */
  lemma {:induction false} StripPadding(pre: string, s: string, post: string)
    requires forall i :: 0 <= i < |pre| ==> IsSpace(pre[i])
    requires forall i :: 0 <= i < |post| ==> IsSpace(post[i])
    requires Stripped(s)
    ensures Strip(pre + s + post) == s
  {
    assert pre + s + post == pre + (s + post);
    TrimStartSkips(pre, s + post);
    if s == [] {
      assert s + post == post + [];
      TrimStartPadding(post, []);
    } else {
      assert TrimStart(s + post) == s + post;
      TrimEndPadding(s, post);
    }
  }

  /** Leading whitespace does not change what `TrimStart` leaves. */
  lemma {:induction false} TrimStartSkips(pre: string, t: string)
    requires forall i :: 0 <= i < |pre| ==> IsSpace(pre[i])
    ensures TrimStart(pre + t) == TrimStart(t)
  {
    if pre != [] {
      var s := pre + t;
      assert s[0] == pre[0] && IsSpace(s[0]);
      assert TrimStart(s) == TrimStart(s[1..]);
      assert s[1..] == pre[1..] + t;
      TrimStartSkips(pre[1..], t);
    } else {
      assert pre + t == t;
    }
  }

  lemma {:induction false} TrimStartPadding(pre: string, s: string)
    requires forall i :: 0 <= i < |pre| ==> IsSpace(pre[i])
    requires s == [] || !IsSpace(s[0])
    ensures TrimStart(pre + s) == s
  {
    TrimStartSkips(pre, s);
  }

  lemma {:induction false} TrimEndPadding(s: string, post: string)
    requires forall i :: 0 <= i < |post| ==> IsSpace(post[i])
    requires s == [] || !IsSpace(s[|s| - 1])
    ensures TrimEnd(s + post) == s
  {
    if post != [] {
      var post' := post[..|post| - 1];
      assert (s + post)[..|s + post| - 1] == s + post';
      TrimEndPadding(s, post');
    }
  }

  /** Index of the first newline of `s`, or `|s|` when there is none. */
  function NewlineIndex(s: string): (k: nat)
    ensures k <= |s|
    ensures forall i :: 0 <= i < k ==> s[i] != '\n'
    ensures k < |s| ==> s[k] == '\n'
  {
    if s == [] || s[0] == '\n' then 0 else 1 + NewlineIndex(s[1..])
  }

  /** A string holding no newline character. */
  predicate NoNewline(s: string)
  {
    forall i :: 0 <= i < |s| ==> s[i] != '\n'
  }

  /** `s.split("\n")`: the lines the MULTILINE anchors `^` and `$` delimit. */
  function SplitNewlines(s: string): (ls: seq<string>)
    ensures |ls| >= 1
    ensures forall i :: 0 <= i < |ls| ==> NoNewline(ls[i])
    decreases |s|
  {
    var k := NewlineIndex(s);
    if k == |s| then [s] else [s[..k]] + SplitNewlines(s[k + 1..])
  }

  /** `"\n".join(ls)`. */
  function JoinNewlines(ls: seq<string>): string
  {
    if |ls| == 0 then ""
    else if |ls| == 1 then ls[0]
    else ls[0] + "\n" + JoinNewlines(ls[1..])
  }

  /** Splitting takes the first line off the front. */
  lemma {:induction false} SplitNewlinesCons(s: string)
    requires NewlineIndex(s) < |s|
    ensures SplitNewlines(s) == [s[..NewlineIndex(s)]] + SplitNewlines(s[NewlineIndex(s) + 1..])
  {
  }

  /** Joining puts the first line in front of the join of the rest. */
  lemma {:induction false} JoinConsAt(joined: string, tail: string, first: string, rest: seq<string>)
    requires |rest| >= 1
    requires joined == JoinNewlines([first] + rest) && tail == JoinNewlines(rest)
    ensures joined == first + "\n" + tail
  {
    assert ([first] + rest)[1..] == rest;
  }

  /** Joining the pieces of a split gives the string back. */
  lemma {:induction false} JoinSplitNewlines(s: string)
    ensures JoinNewlines(SplitNewlines(s)) == s
    decreases |s|
  {
    var k := NewlineIndex(s);
    if k < |s| {
      var rest := s[k + 1..];
      var ls := [s[..k]] + SplitNewlines(rest);
      assert SplitNewlines(s) == ls;
      assert ls[1..] == SplitNewlines(rest);
      JoinSplitNewlines(rest);
      assert JoinNewlines(ls) == s[..k] + "\n" + rest;
      assert s == s[..k] + "\n" + rest;
    } else {
      assert SplitNewlines(s) == [s];
    }
  }

  /** Splitting a join of newline-free pieces gives the pieces back. */
  lemma {:induction false} SplitJoinNewlines(ls: seq<string>)
    requires |ls| >= 1
    requires forall i :: 0 <= i < |ls| ==> NoNewline(ls[i])
    ensures SplitNewlines(JoinNewlines(ls)) == ls
  {
    if |ls| == 1 {
      NewlineIndexOfLine(ls[0], "");
      assert ls[0] + "" == ls[0];
    } else {
      var tail := ls[1..];
      var rest := JoinNewlines(tail);
      var s := ls[0] + "\n" + rest;
      assert JoinNewlines(ls) == s;
      NewlineIndexOfLine(ls[0], "\n" + rest);
      assert s == ls[0] + ("\n" + rest);
      var k := |ls[0]|;
      assert s[..k] == ls[0] && s[k + 1..] == rest;
      SplitNewlinesCons(s);
      assert forall i :: 0 <= i < |tail| ==> tail[i] == ls[i + 1];
      SplitJoinNewlines(tail);
      assert [ls[0]] + tail == ls;
    }
  }

  /** The first newline is unique: any index with the defining properties is it. */
  lemma {:induction false} NewlineIndexAt(s: string, k: nat)
    requires k <= |s|
    requires forall i :: 0 <= i < k ==> s[i] != '\n'
    requires k < |s| ==> s[k] == '\n'
    ensures NewlineIndex(s) == k
  {
  }

  /** On a newline-free line followed by nothing or by a newline, the first
      newline is where the line ends. */
  lemma {:induction false} NewlineIndexOfLine(l: string, t: string)
    requires NoNewline(l)
    requires t == [] || t[0] == '\n'
    ensures NewlineIndex(l + t) == |l|
  {
    var s := l + t;
    assert forall i :: 0 <= i < |l| ==> s[i] == l[i];
    assert |l| < |s| ==> s[|l|] == t[0];
    NewlineIndexAt(s, |l|);
  }

  /** A newline-free string is one line. */
  lemma {:induction false} SingleLine(l: string)
    requires NoNewline(l)
    ensures SplitNewlines(l) == [l]
  {
    NewlineIndexOfLine(l, "");
    assert l + "" == l;
  }

  /** A newline inside `x` is found before anything appended to `x`. */
  lemma {:induction false} NewlineIndexPrefix(x: string, y: string)
    requires NewlineIndex(x) < |x|
    ensures NewlineIndex(x + y) == NewlineIndex(x)
  {
    var s := x + y;
    assert forall i :: 0 <= i < |x| ==> s[i] == x[i];
    NewlineIndexAt(s, NewlineIndex(x));
  }

  /** Splitting distributes over a newline. */
  lemma {:induction false} SplitNewlinesConcat(x: string, y: string)
    ensures SplitNewlines(x + "\n" + y) == SplitNewlines(x) + SplitNewlines(y)
    decreases |x|
  {
    var s := x + "\n" + y;
    var k := NewlineIndex(x);
    if k == |x| {
      NewlineIndexOfLine(x, "\n" + y);
      assert s == x + ("\n" + y);
      assert s[..k] == x;
      assert s[k + 1..] == y;
    } else {
      var x' := x[k + 1..];
      NewlineIndexPrefix(x, "\n" + y);
      assert s == x + ("\n" + y);
      assert s[..k] == x[..k];
      assert s[k + 1..] == x' + "\n" + y;
      SplitNewlinesConcat(x', y);
    }
  }

  /** Joining distributes over a concatenation of non-empty line lists. */
  lemma {:induction false} JoinNewlinesConcat(a: seq<string>, b: seq<string>)
    requires |a| >= 1 && |b| >= 1
    ensures JoinNewlines(a + b) == JoinNewlines(a) + "\n" + JoinNewlines(b)
  {
    if |a| == 1 {
      assert (a + b)[1..] == b;
    } else {
      assert (a + b)[1..] == a[1..] + b;
      JoinNewlinesConcat(a[1..], b);
    }
  }

  /** Index of the first `str.splitlines()` boundary of `s`, or `|s|`. */
  function BoundaryIndex(s: string): (k: nat)
    ensures k <= |s|
    ensures forall i :: 0 <= i < k ==> !IsLineBoundary(s[i])
    ensures k < |s| ==> IsLineBoundary(s[k])
  {
    if s == [] || IsLineBoundary(s[0]) then 0 else 1 + BoundaryIndex(s[1..])
  }

  /** `s.splitlines()`: lines end at any line boundary, "\r\n" is one
      boundary, and a final boundary does not start an empty last line. */
  function SplitLines(s: string): (ls: seq<string>)
    ensures s == [] <==> ls == []
    ensures |ls| <= |s|
    ensures forall i :: 0 <= i < |ls| ==>
              forall j :: 0 <= j < |ls[i]| ==> !IsLineBoundary(ls[i][j])
    decreases |s|
  {
    if s == [] then []
    else
      var k := BoundaryIndex(s);
      if k == |s| then [s]
      else
        var width := if s[k] == '\r' && k + 1 < |s| && s[k + 1] == '\n' then 2 else 1;
        [s[..k]] + SplitLines(s[k + width..])
  }

  /** A string holding no `str.splitlines()` boundary. */
  predicate NoBoundary(s: string)
  {
    forall i :: 0 <= i < |s| ==> !IsLineBoundary(s[i])
  }

  /** On a boundary-free line followed by nothing or by a newline, the
      first boundary is where the line ends. */
  lemma {:induction false} BoundaryIndexOfLine(l: string, t: string)
    requires NoBoundary(l)
    requires t == [] || t[0] == '\n'
    ensures BoundaryIndex(l + t) == |l|
  {
    var s := l + t;
    assert forall i :: 0 <= i < |l| ==> s[i] == l[i];
    assert |l| < |s| ==> s[|l|] == '\n';
    BoundaryIndexAt(s, |l|);
  }

  /** The first boundary is unique: any index with the defining properties is it. */
  lemma {:induction false} BoundaryIndexAt(s: string, k: nat)
    requires k <= |s|
    requires forall i :: 0 <= i < k ==> !IsLineBoundary(s[i])
    requires k < |s| ==> IsLineBoundary(s[k])
    ensures BoundaryIndex(s) == k
  {
  }

  /** `str.splitlines()` undoes a `"\n".join` of boundary-free lines whose
      last line is not empty (an empty last line gives no line of its own). */
  lemma {:induction false} SplitLinesOfJoin(ls: seq<string>)
    requires |ls| >= 1 && ls[|ls| - 1] != []
    requires forall i :: 0 <= i < |ls| ==> NoBoundary(ls[i])
    ensures SplitLines(JoinNewlines(ls)) == ls
  {
    if |ls| == 1 {
      BoundaryIndexOfLine(ls[0], "");
      assert ls[0] + "" == ls[0];
    } else {
      var rest := JoinNewlines(ls[1..]);
      var s := ls[0] + "\n" + rest;
      assert s == ls[0] + ("\n" + rest);
      BoundaryIndexOfLine(ls[0], "\n" + rest);
      assert s[..|ls[0]|] == ls[0];
      assert s[|ls[0]|] == '\n';
      assert s[|ls[0]| + 1..] == rest;
      SplitLinesOfJoin(ls[1..]);
    }
  }
}
