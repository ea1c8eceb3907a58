/**
 * What a comparison report says about the two texts (test/index.ts:54-93):
 * the length note, the single divergence, its line and column, and the two
 * current-line prefixes.
 */
module ComparatorProperties {
  import opened Wrappers
  import opened JsText
  import opened Comparator

  /** The length note is present exactly when the lengths differ, and only ever first. */
  lemma LengthNoteIffLengthsDiffer(expected: string, result: string)
    ensures var msgs := FailAlert(expected, result);
      (|msgs| > 0 && msgs[0] == LengthMismatch(|expected|, |result|)) <==> |expected| != |result|
    ensures var msgs := FailAlert(expected, result);
      forall k :: 0 < k < |msgs| ==> !msgs[k].LengthMismatch?
    ensures var msgs := FailAlert(expected, result);
      |expected| == |result| ==> forall k :: 0 <= k < |msgs| ==> !msgs[k].LengthMismatch?
  {
  }

  /** A run passes (no message at all) exactly when the two texts are identical. */
  lemma NoMessagesIffIdentical(expected: string, result: string)
    ensures FailAlert(expected, result) == [] <==> expected == result
  {
    NoDivergenceIffPrefix(expected, result);
    if expected == result {
      assert expected <= result;
    }
    if FailAlert(expected, result) == [] {
      assert FirstDivergence(expected, result).None?;
      assert expected == result[..|expected|];
    }
  }

  /** An expected text that is a proper prefix of the result yields the length note alone. */
  lemma ExpectedPrefixOfResult(expected: string, result: string)
    requires expected <= result && |expected| < |result|
    ensures FailAlert(expected, result) == [LengthMismatch(|expected|, |result|)]
  {
    NoDivergenceIffPrefix(expected, result);
  }

  /** A result that is a proper prefix of the expected text diverges where it runs out. */
  lemma ResultPrefixOfExpected(expected: string, result: string)
    requires result <= expected && |result| < |expected|
    ensures FirstDivergence(expected, result) == Some(|result|)
    ensures var msgs := FailAlert(expected, result);
      |msgs| == 4 && msgs[0] == LengthMismatch(|expected|, |result|) && msgs[1].Divergence? && msgs[1].index == |result|
  {
    forall j | 0 <= j < |result| ensures !DivergesAt(expected, result, j) {
      assert result[j] == expected[..|result|][j];
    }
    FailAlertAt(expected, result, |result|);
  }

  /**
   * Scanning stops at the first divergence: the report holds at most one
   * location message, it names the least stopping index, and it is followed
   * by exactly the two line prefixes, each rendered to its own length.
   */
  lemma AtMostOneDivergence(expected: string, result: string)
    ensures var msgs := FailAlert(expected, result);
      |msgs| <= 4 &&
      forall k, l :: 0 <= k < |msgs| && 0 <= l < |msgs| && msgs[k].Divergence? && msgs[l].Divergence? ==> k == l
    ensures var msgs := FailAlert(expected, result);
      forall k :: 0 <= k < |msgs| && msgs[k].LinePrefix? ==> |msgs[k].rendered| == msgs[k].length
    ensures var msgs := FailAlert(expected, result);
      (exists k :: 0 <= k < |msgs| && msgs[k].Divergence?) <==> FirstDivergence(expected, result).Some?
    ensures var msgs := FailAlert(expected, result);
      FirstDivergence(expected, result).Some? ==>
        var i := FirstDivergence(expected, result).value;
        && msgs[|msgs| - 3].Divergence? && msgs[|msgs| - 3].index == i
        && DivergesAt(expected, result, i)
        && (forall j :: 0 <= j < i ==> !DivergesAt(expected, result, j))
        && msgs[|msgs| - 2].LinePrefix? && msgs[|msgs| - 2].isExpected
        && msgs[|msgs| - 1].LinePrefix? && !msgs[|msgs| - 1].isExpected
  {
    FirstDivergenceIsLeast(expected, result);
    var msgs := FailAlert(expected, result);
    if FirstDivergence(expected, result).Some? {
      assert msgs[|msgs| - 3].Divergence?;
    }
  }

  /**
   * The location message of a divergence at `i`: its index is `i` and its line
   * is one more than the newlines in `expected[0..i]` inclusive; the message
   * after it renders the expected prefix.
   */
  lemma DivergenceLine(expected: string, result: string, i: nat)
    requires FirstDivergence(expected, result) == Some(i)
    ensures var msgs := FailAlert(expected, result);
      var loc := msgs[|msgs| - 3];
      && loc.Divergence? && loc.index == i
      && loc.line == 1 + multiset(expected[..i + 1])['\n']
    ensures var msgs := FailAlert(expected, result);
      msgs[|msgs| - 2] == LinePrefix(true, |ExpectedLine(expected, i + 1)|, Render(ExpectedLine(expected, i + 1)))
  {
    LineNumberCountsNewlines(expected, i + 1);
  }

  /**
   * The column of a divergence at `i` counts from the last newline in
   * `expected[0..i]`, which is itself column 1, or is `i + 1` when there is
   * none; the expected prefix is the text from that newline through `i`.
   */
  lemma DivergenceColumn(expected: string, result: string, i: nat)
    requires FirstDivergence(expected, result) == Some(i)
    ensures var msgs := FailAlert(expected, result);
      var loc := msgs[|msgs| - 3];
      && loc.Divergence?
      && ('\n' !in expected[..i + 1] ==> loc.column == i + 1 && ExpectedLine(expected, i + 1) == expected[..i + 1])
      && ('\n' in expected[..i + 1] ==>
            exists p :: 0 <= p <= i && expected[p] == '\n'
                        && (forall j :: p < j <= i ==> expected[j] != '\n')
                        && loc.column == i - p + 1
                        && ExpectedLine(expected, i + 1) == expected[p..i + 1])
  {
    var el := ExpectedLine(expected, i + 1);
    var msgs := FailAlert(expected, result);
    assert msgs[|msgs| - 3] == Divergence(i, LineNumber(expected, i + 1), |el|);
    ExpectedLineFromLastNewline(expected, i + 1);
    if '\n' in expected[..i + 1] {
      var p :| 0 <= p < i + 1 && expected[p] == '\n'
               && (forall j :: p < j < i + 1 ==> expected[j] != '\n')
               && el == expected[p..i + 1];
      assert |el| == i - p + 1;
    }
  }

  /** The expected prefix starts just at the last newline up to position `n - 1`, or at 0 when there is none. */
  lemma ExpectedLineFromLastNewline(expected: string, n: nat)
    requires 0 < n <= |expected|
    ensures '\n' !in expected[..n] ==> ExpectedLine(expected, n) == expected[..n]
    ensures '\n' in expected[..n] ==>
      exists p :: 0 <= p < n && expected[p] == '\n'
                  && (forall j :: p < j < n ==> expected[j] != '\n')
                  && ExpectedLine(expected, n) == expected[p..n]
  {
    var s := expected[..n];
    ExpectedLineIsSlice(expected, n);
    LineStartIsLastNewline(s);
    var p := LineStart(s);
    if '\n' in s {
      assert expected[p] == '\n';
      forall j | p < j < n ensures expected[j] != '\n' {
        assert s[j] == expected[j];
      }
    }
  }

  /**
   * The result prefix covers the same positions as the expected one, cut where
   * the result ends: it is never longer, agrees before `i`, and differs at `i`
   * when the result still has a character there.
   */
  lemma ResultLineAgrees(expected: string, result: string, i: nat)
    requires FirstDivergence(expected, result) == Some(i)
    ensures var el := ExpectedLine(expected, i + 1);
      var rl := ResultLine(expected, result, i + 1);
      && rl == result[LineStart(expected[..i + 1])..if i < |result| then i + 1 else |result|]
      && 0 < |el| && |el| - 1 <= |rl| <= |el|
      && rl[..|el| - 1] == el[..|el| - 1]
      && (i < |result| ==> |rl| == |el| && rl[|rl| - 1] != el[|el| - 1])
      && (i == |result| ==> rl == el[..|el| - 1])
    ensures var msgs := FailAlert(expected, result);
      var rl := ResultLine(expected, result, i + 1);
      msgs[|msgs| - 1] == LinePrefix(false, |rl|, Render(rl))
  {
    FirstDivergenceIsLeast(expected, result);
    ExpectedLineIsSlice(expected, i + 1);
    ResultLineIsSlice(expected, result, i + 1);
    var p := LineStart(expected[..i + 1]);
    var end := if i < |result| then i + 1 else |result|;
    SharedPrefix(expected, result, p, i);
    assert expected[p..i + 1][..i - p] == expected[p..i];
    assert result[p..end][..i - p] == result[p..i];
  }

  /** Before the first divergence the two texts agree position by position. */
  lemma SharedPrefix(expected: string, result: string, p: nat, i: nat)
    requires p <= i && FirstDivergence(expected, result) == Some(i)
    ensures i <= |result| && result[p..i] == expected[p..i]
  {
    FirstDivergenceIsLeast(expected, result);
    forall j | p <= j < i ensures result[j] == expected[j] {
      assert !DivergesAt(expected, result, j);
    }
  }

  /**
   * Two texts that differ on their second line: the column counts the newline
   * that opens the line, and the prefixes start with it (shown as a return arrow).
   */
  lemma SecondLineDivergence()
    ensures FailAlert("a\nb\n", "a\nc\n") ==
      [ Divergence(2, 2, 2),
        LinePrefix(true, 2, [ReturnArrow, 'b']),
        LinePrefix(false, 2, [ReturnArrow, 'c']) ]
  {
    var e, r := "a\nb\n", "a\nc\n";
    assert DivergesAt(e, r, 2) && !DivergesAt(e, r, 0) && !DivergesAt(e, r, 1);
    FailAlertAt(e, r, 2);
    assert ExpectedLine(e, 3) == ['\n', 'b'];
    assert ResultLine(e, r, 3) == ['\n', 'c'];
    assert LineNumber(e, 3) == 2;
    RenderNewlineOnly('b');
    RenderNewlineOnly('c');
  }

  /** A rendered two-character line that opens with a newline. */
  lemma RenderNewlineOnly(c: char)
    requires c != ' ' && c != '\t' && c != '\n'
    ensures Render(['\n', c]) == [ReturnArrow, c]
  {
    var s := ['\n', c];
    ReplaceFirstLength(s, ' ', [MiddleDot]);
    ReplaceFirstLength(s, '\t', [TwoEmDash]);
    assert s[1..] == [c];
  }

  /** "abc" against "ab" first diverges where the result runs out. */
  lemma TruncatedResultStops()
    ensures FirstDivergence("abc", "ab") == Some(2)
  {
    var e, r := "abc", "ab";
    assert DivergesAt(e, r, 2) && !DivergesAt(e, r, 0) && !DivergesAt(e, r, 1);
    FirstDivergenceAt(e, r, 2);
  }

  /** The line, the expected prefix and the result prefix at the third character of "abc" against "ab". */
  lemma TruncatedResultLines()
    ensures LineNumber("abc", 3) == 1
    ensures ExpectedLine("abc", 3) == "abc"
    ensures ResultLine("abc", "ab", 3) == "ab"
  {
    assert ExpectedLine("abc", 2) == "ab";
    assert ResultLine("abc", "ab", 2) == "ab";
  }

  /** A truncated result: length note, then the divergence where the result ran out. */
  lemma TruncatedResult()
    ensures FailAlert("abc", "ab") ==
      [ LengthMismatch(3, 2),
        Divergence(2, 1, 3),
        LinePrefix(true, 3, "abc"),
        LinePrefix(false, 2, "ab") ]
  {
    TruncatedResultStops();
    TruncatedResultLines();
    RenderPlain("abc");
    RenderPlain("ab");
    assert DivergenceMessages(2, 1, "abc", "ab") ==
      [Divergence(2, 1, 3), LinePrefix(true, 3, "abc"), LinePrefix(false, 2, "ab")];
  }
}
