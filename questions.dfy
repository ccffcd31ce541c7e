/** The question count of the endpoint (app.py lines 117-120): the number
    of lines of the stripped prompt that, once stripped themselves, start
    with one of the twenty markers "1)" to "20)". Lines are those of
    `str.splitlines()`. */
module Questions {
  import opened PyText

  function DigitChar(d: nat): (c: char)
    requires d < 10
    ensures '0' <= c <= '9'
  {
    ('0' as int + d) as char
  }

  /** `f"{n}"`: the decimal digits of `n`. */
  function Decimal(n: nat): (s: string)
    ensures |s| >= 1 && forall i :: 0 <= i < |s| ==> '0' <= s[i] <= '9'
  {
    if n < 10 then [DigitChar(n)] else Decimal(n / 10) + [DigitChar(n % 10)]
  }

  /** `f"{k})"`. */
  function Marker(k: nat): string
  {
    Decimal(k) + ")"
  }

  /** `tuple(f"{i})" for i in range(1, 21))`. */
  function Markers(): (ms: seq<string>)
    ensures |ms| == 20
    ensures forall i :: 0 <= i < 20 ==> ms[i] == Marker(i + 1)
  {
    seq(20, i requires 0 <= i < 20 => Marker(i + 1))
  }

  /** `s.startswith(ps)` for a tuple `ps`. */
  predicate StartsWithAny(s: string, ps: seq<string>)
  {
    exists i :: 0 <= i < |ps| && StartsWith(s, ps[i])
  }

  /** The test the generator applies to each line. */
  predicate IsQuestionLine(line: string)
  {
    StartsWithAny(Strip(line), Markers())
  }

  /** `sum(1 for x in ls if p(x))`. */
  function CountWhere(ls: seq<string>, p: string -> bool): (n: nat)
    ensures n <= |ls|
  {
    if ls == [] then 0
    else CountWhere(ls[..|ls| - 1], p) + (if p(ls[|ls| - 1]) then 1 else 0)
  }

  /** `num_questions` for the stripped prompt. */
  function CountQuestions(prompt: string): (n: nat)
    ensures n <= |SplitLines(prompt)|
  {
    CountWhere(SplitLines(prompt), IsQuestionLine)
  }

  /** A prompt written as newline-separated lines, the last of them not
      empty, is counted line by line. */
  lemma {:induction false} CountQuestionsOfLines(ls: seq<string>)
    requires |ls| >= 1 && ls[|ls| - 1] != []
    requires forall i :: 0 <= i < |ls| ==> NoBoundary(ls[i])
    ensures CountQuestions(JoinNewlines(ls)) == CountWhere(ls, IsQuestionLine)
  {
    SplitLinesOfJoin(ls);
  }

  predicate IsDigit(c: char)
  {
    '0' <= c <= '9'
  }

  /** Reference definition, digit by digit: a one-digit number 1-9, or a
      two-digit one 10-19 or 20, then ')'. */
  predicate NumberedPrefix(t: string)
  {
    || (|t| >= 2 && '1' <= t[0] <= '9' && t[1] == ')')
    || (|t| >= 3 && t[0] == '1' && IsDigit(t[1]) && t[2] == ')')
    || (|t| >= 3 && t[0] == '2' && t[1] == '0' && t[2] == ')')
  }

  lemma {:induction false} DecimalShape(n: nat)
    ensures n < 10 ==> Decimal(n) == [DigitChar(n)]
    ensures 10 <= n < 100 ==> Decimal(n) == [DigitChar(n / 10), DigitChar(n % 10)]
    ensures n >= 100 ==> |Decimal(n)| >= 3
  {
    if n >= 10 {
      DecimalShape(n / 10);
    }
  }

  /** The markers after the first nine are the two-digit ones. */
  lemma {:induction false} MarkerDigits(k: nat)
    requires 1 <= k <= 20
    ensures k < 10 ==> Marker(k) == [DigitChar(k), ')']
    ensures 10 <= k < 20 ==> Marker(k) == ['1', DigitChar(k - 10), ')']
    ensures k == 20 ==> Marker(k) == ['2', '0', ')']
  {
    DecimalShape(k);
    if 10 <= k < 20 {
      assert k / 10 == 1 && k % 10 == k - 10;
    } else if k == 20 {
      assert k / 10 == 2 && k % 10 == 0;
    }
  }

  /** A line is a question exactly when its stripped form passes the
      digit-by-digit reference test. */
  lemma {:induction false} QuestionLineByDigits(line: string)
    ensures IsQuestionLine(line) <==> NumberedPrefix(Strip(line))
  {
    MarkedByDigits(Strip(line));
  }

  /** Starting with one of the twenty markers is the digit-by-digit test. */
  lemma {:induction false} MarkedByDigits(t: string)
    ensures StartsWithAny(t, Markers()) <==> NumberedPrefix(t)
  {
    if StartsWithAny(t, Markers()) {
      MarkedHasDigits(t);
    }
    if NumberedPrefix(t) {
      DigitsMakeMarked(t);
    }
  }

  lemma {:induction false} MarkedHasDigits(t: string)
    requires StartsWithAny(t, Markers())
    ensures NumberedPrefix(t)
  {
    var ms := Markers();
    var i :| 0 <= i < 20 && StartsWith(t, ms[i]);
    MarkerDigits(i + 1);
    SpelledMarkerPrefix(t, ms[i], i + 1);
  }

  /** A text that starts with the spelled-out marker for `k` passes the
      digit test. */
  lemma {:induction false} SpelledMarkerPrefix(t: string, m: string, k: nat)
    requires 1 <= k <= 20 && StartsWith(t, m)
    requires k < 10 ==> m == [DigitChar(k), ')']
    requires 10 <= k < 20 ==> m == ['1', DigitChar(k - 10), ')']
    requires k == 20 ==> m == ['2', '0', ')']
    ensures NumberedPrefix(t)
  {
    assert t[..|m|] == m;
    if k < 10 {
      assert t[0] == m[0] && t[1] == m[1];
    } else {
      assert t[0] == m[0] && t[1] == m[1] && t[2] == m[2];
    }
  }

  lemma {:induction false} DigitsMakeMarked(t: string)
    requires NumberedPrefix(t)
    ensures StartsWithAny(t, Markers())
  {
    var k: nat;
    if |t| >= 2 && '1' <= t[0] <= '9' && t[1] == ')' {
      k := t[0] as int - '0' as int;
    } else if t[0] == '1' {
      k := 10 + (t[1] as int - '0' as int);
    } else {
      k := 20;
    }
    MarkerDigits(k);
    var m := Marker(k);
    assert t[..|m|] == m;
    assert StartsWith(t, Markers()[k - 1]);
  }

  /** Numbers outside 1-20 are not recognised: a stripped line starting
      with "0)" or "21)" and up is not counted. */
  lemma {:induction false} LargeOrZeroNotCounted(line: string, k: nat)
    requires k == 0 || k > 20
    requires StartsWith(Strip(line), Marker(k))
    ensures !IsQuestionLine(line)
  {
    UnlistedNotMarked(Strip(line), k);
  }

  lemma {:induction false} UnlistedNotMarked(t: string, k: nat)
    requires k == 0 || k > 20
    requires StartsWith(t, Marker(k))
    ensures !StartsWithAny(t, Markers())
  {
    DecimalShape(k);
    MarkedByDigits(t);
    var d := Decimal(k);
    assert t[..|d|] == d by {
      assert t[..|d| + 1] == Marker(k);
      assert Marker(k)[..|d|] == d;
    }
    if k >= 100 {
      assert IsDigit(t[1]) && IsDigit(t[2]);
    }
  }

  /** A line holding, after optional indentation, a marker "k)" with k in
      1-20 is counted, whatever follows the marker. */
  lemma {:induction false} MarkedLineCounted(indent: string, k: nat, rest: string)
    requires forall i :: 0 <= i < |indent| ==> IsSpace(indent[i])
    requires 1 <= k <= 20
    ensures IsQuestionLine(indent + Marker(k) + rest)
  {
    var m := Marker(k);
    MarkerDigits(k);
    assert indent + m + rest == indent + (m + rest);
    TrimStartPadding(indent, m + rest);
    TrimEndKeepsPrefix(m, rest);
    assert StartsWith(Strip(indent + m + rest), Markers()[k - 1]);
  }

  /** Trailing whitespace removal never reaches into a prefix that ends in a
      non-space. */
  lemma {:induction false} TrimEndKeepsPrefix(m: string, rest: string)
    requires m != [] && !IsSpace(m[|m| - 1])
    ensures StartsWith(TrimEnd(m + rest), m)
  {
    var s := m + rest;
    var r := TrimEnd(s);
    TrimEndShape(s);
    TrimEndIsPrefix(s);
    assert s[|m| - 1] == m[|m| - 1];
    assert |r| >= |m|;
    assert r[..|m|] == s[..|m|] == m;
  }

  /** The indices of the elements that pass `p`. */
  function IndicesWhere(ls: seq<string>, p: string -> bool): (ix: set<nat>)
    ensures forall i: nat :: i in ix <==> i < |ls| && p(ls[i])
  {
    set i: nat | i < |ls| && p(ls[i])
  }

  /** The sum counts the elements that pass the test. */
  lemma {:induction false} CountIsCardinality(ls: seq<string>, p: string -> bool)
    ensures CountWhere(ls, p) == |IndicesWhere(ls, p)|
  {
    if ls != [] {
      var n := |ls| - 1;
      var front := ls[..n];
      CountIsCardinality(front, p);
      var before := IndicesWhere(front, p);
      var all := IndicesWhere(ls, p);
      assert n !in before;
      if p(ls[n]) {
        assert all == before + {n};
      } else {
        assert all == before;
      }
    }
  }

  /** Counting is additive over a split of the sequence. */
  lemma {:induction false} CountConcat(a: seq<string>, b: seq<string>, p: string -> bool)
    ensures CountWhere(a + b, p) == CountWhere(a, p) + CountWhere(b, p)
  {
    if b != [] {
      var n := |b| - 1;
      assert (a + b)[..|a + b| - 1] == a + b[..n];
      assert (a + b)[|a + b| - 1] == b[n];
      CountConcat(a, b[..n], p);
    } else {
      assert a + b == a;
    }
  }

  /** Nothing is counted exactly when no element passes the test. */
  lemma {:induction false} CountZeroIff(ls: seq<string>, p: string -> bool)
    ensures CountWhere(ls, p) == 0 <==> forall i :: 0 <= i < |ls| ==> !p(ls[i])
  {
    if ls != [] {
      var n := |ls| - 1;
      CountZeroIff(ls[..n], p);
      assert forall i :: 0 <= i < n ==> ls[..n][i] == ls[i];
    }
  }
}
