/**
 * The first-divergence comparator of the snapshot runner (test/index.ts:54-93).
 * Given the expected text of a fixture and the text the formatter produced, it
 * builds the list of failure messages: a length note when the lengths differ,
 * then, at the first index where the result has run out or disagrees, the
 * index with its line and column and both current-line prefixes made visible.
 */
module Comparator {
  import opened Wrappers
  import opened JsText

  /** The messages of one failure report, kept as data rather than as rendered text. */
  datatype Message =
    | Header(caseName: string, filename: string)
    | LengthMismatch(expectedLength: nat, resultLength: nat)
    | Divergence(index: nat, line: nat, column: nat)
    | LinePrefix(isExpected: bool, length: nat, rendered: string)

  /** The scan stops at `i`: the result has no character there, or a different one. */
  predicate DivergesAt(expected: string, result: string, i: nat)
  {
    i < |expected| && (i >= |result| || expected[i] != result[i])
  }

  /** The least index at which the scan stops, if it stops at all. */
  function FirstDivergence(expected: string, result: string): (r: Option<nat>)
    ensures r.Some? ==> r.value < |expected| && r.value <= |result|
  {
    if |expected| == 0 then None
    else if |result| == 0 || expected[0] != result[0] then Some(0)
    else
      match FirstDivergence(expected[1..], result[1..])
      case None => None
      case Some(k) => Some(k + 1)
  }

  /** FirstDivergence is the least stopping index, and there is none when it reports none. */
  lemma {:induction false} FirstDivergenceIsLeast(expected: string, result: string)
    ensures FirstDivergence(expected, result).Some? ==>
      var i := FirstDivergence(expected, result).value;
      DivergesAt(expected, result, i) && forall j :: 0 <= j < i ==> !DivergesAt(expected, result, j)
    ensures FirstDivergence(expected, result).None? ==>
      forall j :: 0 <= j < |expected| ==> !DivergesAt(expected, result, j)
  {
    if |expected| > 0 && |result| > 0 && expected[0] == result[0] {
      FirstDivergenceIsLeast(expected[1..], result[1..]);
      assert forall j :: 0 < j < |expected| ==>
        (DivergesAt(expected, result, j) <==> DivergesAt(expected[1..], result[1..], j - 1));
    }
  }

  /** The scan runs to the end of the expected text exactly when it is a prefix of the result. */
  lemma NoDivergenceIffPrefix(expected: string, result: string)
    ensures FirstDivergence(expected, result).None? <==> expected <= result
  {
    FirstDivergenceIsLeast(expected, result);
    if FirstDivergence(expected, result).None? {
      forall j | 0 <= j < |expected| ensures j < |result| && expected[j] == result[j] {
        assert !DivergesAt(expected, result, j);
      }
      assert |expected| <= |result| by {
        if |expected| > 0 { assert !DivergesAt(expected, result, |expected| - 1); }
      }
      assert expected == result[..|expected|];
    } else {
      var i := FirstDivergence(expected, result).value;
      assert DivergesAt(expected, result, i);
    }
  }

  /** The line counter after reading `n` characters of the expected text (`lineCount`). */
  function LineNumber(expected: string, n: nat): (line: nat)
    requires n <= |expected|
    ensures 1 <= line <= n + 1
  {
    if n == 0 then 1
    else LineNumber(expected, n - 1) + if expected[n - 1] == '\n' then 1 else 0
  }

  /**
   * The expected text's current line after `n` characters (`expectedLine`): an
   * expected newline empties it and is then appended to it.
   */
  function ExpectedLine(expected: string, n: nat): (line: string)
    requires n <= |expected|
    ensures 0 < |line| <= n || line == [] == expected[..n]
  {
    if n == 0 then []
    else (if expected[n - 1] == '\n' then [] else ExpectedLine(expected, n - 1)) + [expected[n - 1]]
  }

  /**
   * The result's current line after `n` characters of the expected text
   * (`resultLine`): emptied on the same expected newlines, and fed with the
   * result's character at each position the result still has.
   */
  function ResultLine(expected: string, result: string, n: nat): (line: string)
    requires n <= |expected|
    ensures |line| <= |ExpectedLine(expected, n)|
  {
    if n == 0 then []
    else (if expected[n - 1] == '\n' then [] else ResultLine(expected, result, n - 1))
         + (if n - 1 < |result| then [result[n - 1]] else [])
  }

  /**
   * Where the current line of `s` starts: the index of its last newline (the
   * accumulators restart AT the newline), or 0 when there is none.
   */
  function LineStart(s: string): (p: nat)
    ensures if |s| == 0 then p == 0 else p < |s|
  {
    if |s| == 0 then 0
    else if s[|s| - 1] == '\n' then |s| - 1
    else LineStart(s[..|s| - 1])
  }

  /** LineStart is the last newline of `s`, or 0 when `s` holds none. */
  lemma {:induction false} LineStartIsLastNewline(s: string)
    ensures '\n' in s ==> s[LineStart(s)] == '\n'
    ensures '\n' !in s ==> LineStart(s) == 0
    ensures forall j :: LineStart(s) < j < |s| ==> s[j] != '\n'
  {
    if |s| > 0 && s[|s| - 1] != '\n' {
      var t := s[..|s| - 1];
      LineStartIsLastNewline(t);
      assert '\n' in s <==> '\n' in t by {
        if '\n' in s {
          var j :| 0 <= j < |s| && s[j] == '\n';
          assert t[j] == '\n';
        }
      }
    }
  }

  /** The line counter is one more than the number of newlines read so far. */
  lemma {:induction false} LineNumberCountsNewlines(expected: string, n: nat)
    requires n <= |expected|
    ensures LineNumber(expected, n) == 1 + multiset(expected[..n])['\n']
  {
    if n > 0 {
      LineNumberCountsNewlines(expected, n - 1);
      assert expected[..n] == expected[..n - 1] + [expected[n - 1]];
    }
  }

  /** Reading one more character moves the line start only when that character is a newline. */
  lemma LineStartStep(expected: string, n: nat)
    requires 0 < n <= |expected|
    ensures LineStart(expected[..n]) ==
            if expected[n - 1] == '\n' then n - 1 else LineStart(expected[..n - 1])
  {
    assert expected[..n][..n - 1] == expected[..n - 1];
  }

  /** The expected accumulator holds the text from the last newline read, or from the start. */
  lemma {:induction false} ExpectedLineIsSlice(expected: string, n: nat)
    requires n <= |expected|
    ensures ExpectedLine(expected, n) == expected[LineStart(expected[..n])..n]
  {
    if n > 0 {
      LineStartStep(expected, n);
      if expected[n - 1] != '\n' {
        ExpectedLineIsSlice(expected, n - 1);
        var p := LineStart(expected[..n - 1]);
        assert expected[p..n] == expected[p..n - 1] + [expected[n - 1]];
      }
    }
  }

  /** The result accumulator holds the result's text over the same positions, cut at its end. */
  lemma {:induction false} ResultLineIsSlice(expected: string, result: string, n: nat)
    requires n <= |expected| && n <= |result| + 1
    ensures ResultLine(expected, result, n) ==
            result[LineStart(expected[..n])..if n <= |result| then n else |result|]
  {
    if n > 0 {
      LineStartStep(expected, n);
      if expected[n - 1] != '\n' {
        ResultLineIsSlice(expected, result, n - 1);
        var p := LineStart(expected[..n - 1]);
        if n <= |result| {
          assert result[p..n] == result[p..n - 1] + [result[n - 1]];
        }
      }
    }
  }

  /** The three messages pushed at a divergence: location, then both rendered prefixes. */
  function DivergenceMessages(i: nat, line: nat, expectedLine: string, resultLine: string): (msgs: seq<Message>)
    ensures |msgs| == 3 && msgs[0].Divergence? && msgs[1].LinePrefix? && msgs[2].LinePrefix?
    ensures msgs[0].column == msgs[1].length
    ensures msgs[1].length == |msgs[1].rendered| && msgs[2].length == |msgs[2].rendered|
  {
    [ Divergence(i, line, |expectedLine|),
      LinePrefix(true, |expectedLine|, Render(expectedLine)),
      LinePrefix(false, |resultLine|, Render(resultLine)) ]
  }

  /** The messages one comparison produces, before the header is added. */
  function FailAlert(expected: string, result: string): (msgs: seq<Message>)
    ensures |msgs| <= 4
    ensures |expected| == |result| ==> |msgs| == 0 || |msgs| == 3
    ensures |expected| != |result| ==> |msgs| == 1 || |msgs| == 4
  {
    (if |expected| != |result| then [LengthMismatch(|expected|, |result|)] else [])
    + match FirstDivergence(expected, result)
      case None => []
      case Some(i) =>
        DivergenceMessages(i, LineNumber(expected, i + 1),
                           ExpectedLine(expected, i + 1), ResultLine(expected, result, i + 1))
  }

  /** A scan that never stops reports only the length note, if any. */
  lemma FailAlertNone(expected: string, result: string)
    requires forall j :: 0 <= j < |expected| ==> !DivergesAt(expected, result, j)
    ensures FailAlert(expected, result) ==
      if |expected| != |result| then [LengthMismatch(|expected|, |result|)] else []
  {
    FirstDivergenceIsLeast(expected, result);
  }

  /** A stop at `i` with none before it is the first divergence. */
  lemma FirstDivergenceAt(expected: string, result: string, i: nat)
    requires DivergesAt(expected, result, i)
    requires forall j :: 0 <= j < i ==> !DivergesAt(expected, result, j)
    ensures FirstDivergence(expected, result) == Some(i)
  {
    FirstDivergenceIsLeast(expected, result);
  }

  /** The first divergence fixes the whole report. */
  lemma FailAlertAt(expected: string, result: string, i: nat)
    requires DivergesAt(expected, result, i)
    requires forall j :: 0 <= j < i ==> !DivergesAt(expected, result, j)
    ensures FirstDivergence(expected, result) == Some(i)
    ensures i <= |result|
    ensures FailAlert(expected, result) ==
      (if |expected| != |result| then [LengthMismatch(|expected|, |result|)] else [])
      + DivergenceMessages(i, LineNumber(expected, i + 1),
                           ExpectedLine(expected, i + 1), ResultLine(expected, result, i + 1))
  {
    FirstDivergenceAt(expected, result, i);
  }

  /**
   * The `forEach` over the two current lines (test/index.ts:78-90): one
   * rendered prefix message per line, labelled by the toggling `isExpected`.
   */
  method PushLinePrefixes(failAlert: seq<Message>, expectedLine: string, resultLine: string)
    returns (pushed: seq<Message>)
    ensures pushed == failAlert + [LinePrefix(true, |expectedLine|, Render(expectedLine)),
                                   LinePrefix(false, |resultLine|, Render(resultLine))]
  {
    var lines := [expectedLine, resultLine];
    var isExpected := true;
    pushed := failAlert;
    for k := 0 to |lines|
      invariant isExpected == (k % 2 == 0)
      invariant pushed == failAlert
        + (if k >= 1 then [LinePrefix(true, |expectedLine|, Render(expectedLine))] else [])
        + (if k == 2 then [LinePrefix(false, |resultLine|, Render(resultLine))] else [])
    {
      pushed := pushed + [LinePrefix(isExpected, |lines[k]|, Render(lines[k]))];
      isExpected := !isExpected;
    }
  }

  /** The comparison loop of test/index.ts:54-93, with its `break` at the first divergence. */
  method CompareTexts(expected: string, result: string) returns (failAlert: seq<Message>)
    ensures failAlert == FailAlert(expected, result)
  {
    failAlert := [];
    if |expected| != |result| {
      failAlert := failAlert + [LengthMismatch(|expected|, |result|)];
    }
    var lineCount := 1;
    var resultLine := "";
    var expectedLine := "";
    var i := 0;
    while i < |expected|
      invariant i <= |expected| && i <= |result|
      invariant failAlert == if |expected| != |result| then [LengthMismatch(|expected|, |result|)] else []
      invariant forall j :: 0 <= j < i ==> !DivergesAt(expected, result, j)
      invariant lineCount == LineNumber(expected, i)
      invariant expectedLine == ExpectedLine(expected, i)
      invariant resultLine == ResultLine(expected, result, i)
    {
      if expected[i] == '\n' {
        lineCount := lineCount + 1;
        resultLine := "";
        expectedLine := "";
      }
      expectedLine := expectedLine + [expected[i]];
      resultLine := resultLine + if i < |result| then [result[i]] else [];
      assert lineCount == LineNumber(expected, i + 1);
      assert expectedLine == ExpectedLine(expected, i + 1);
      assert resultLine == ResultLine(expected, result, i + 1);
      if i >= |result| || expected[i] != result[i] {
        FailAlertAt(expected, result, i);
        ghost var before := failAlert;
        failAlert := failAlert + [Divergence(i, lineCount, |expectedLine|)];
        failAlert := PushLinePrefixes(failAlert, expectedLine, resultLine);
        assert failAlert == before + DivergenceMessages(i, lineCount, expectedLine, resultLine);
        break;
      }
      i := i + 1;
    }
    if i == |expected| {
      FailAlertNone(expected, result);
    }
  }
}
