/**
 * The JavaScript string operations the test runner relies on, over strings
 * taken as sequences of Unicode scalar values (one per UTF-16 code unit on
 * text within the Basic Multilingual Plane).  `String.prototype.replace` with a
 * string pattern rewrites only the FIRST occurrence of the pattern; the runner
 * uses it to drop a carriage return (test/index.ts:46, 52) and to make
 * whitespace visible in a failure report (test/index.ts:87).
 */
module JsText {
  import opened Wrappers

  /** Visible stand-ins for a space, a tab and a newline (each one character, and one UTF-16 code unit). */
  const MiddleDot: char := '\U{00B7}'
  const TwoEmDash: char := '\U{2E3B}'
  const ReturnArrow: char := '\U{2B92}'

  /** `s.indexOf(c)`: the first position of `c` in `s`, if there is one. */
  function IndexOf(s: string, c: char): (r: Option<nat>)
    ensures r.None? <==> c !in s
    ensures r.Some? ==> r.value < |s| && s[r.value] == c && c !in s[..r.value]
  {
    if |s| == 0 then None
    else if s[0] == c then Some(0)
    else
      match IndexOf(s[1..], c)
      case None => None
      case Some(k) =>
        assert s[..k + 1] == [s[0]] + s[1..][..k];
        Some(k + 1)
  }

  /** `s.replace(c, rep)` for a one-character string pattern `c`. */
  function ReplaceFirst(s: string, c: char, rep: string): (r: string)
    ensures |r| <= |s| + |rep|
  {
    if |s| == 0 then s
    else if s[0] == c then rep + s[1..]
    else [s[0]] + ReplaceFirst(s[1..], c, rep)
  }

  /** Without an occurrence nothing changes; with one, one character gives way to `rep`. */
  lemma {:induction false} ReplaceFirstLength(s: string, c: char, rep: string)
    ensures c !in s ==> ReplaceFirst(s, c, rep) == s
    ensures |ReplaceFirst(s, c, rep)| == if c in s then |s| - 1 + |rep| else |s|
  {
    if |s| > 0 && s[0] != c {
      ReplaceFirstLength(s[1..], c, rep);
      assert c in s <==> c in s[1..];
    }
  }

  /** Only the first occurrence is rewritten: everything before and after it is kept. */
  lemma {:induction false} ReplaceFirstSplits(s: string, c: char, rep: string)
    requires c in s
    ensures IndexOf(s, c).Some?
    ensures var k := IndexOf(s, c).value;
            ReplaceFirst(s, c, rep) == s[..k] + rep + s[k + 1..]
  {
    if s[0] != c {
      assert c in s[1..] by {
        var j :| 0 <= j < |s| && s[j] == c;
        assert j != 0 && s[1..][j - 1] == c;
      }
      ReplaceFirstSplits(s[1..], c, rep);
      var k := IndexOf(s[1..], c).value;
      assert s[..k + 1] == [s[0]] + s[1..][..k];
      assert s[k + 2..] == s[1..][k + 1..];
    }
  }

  /** Replacing by one character changes exactly the position of the first occurrence. */
  lemma {:induction false} ReplaceFirstCharAt(s: string, c: char, d: char, k: nat)
    requires k < |s|
    ensures |ReplaceFirst(s, c, [d])| == |s|
    ensures ReplaceFirst(s, c, [d])[k] == if IndexOf(s, c) == Some(k) then d else s[k]
  {
    ReplaceFirstLength(s, c, [d]);
    if s[0] != c && k > 0 {
      ReplaceFirstCharAt(s[1..], c, d, k - 1);
    }
  }

  /** Rewriting `c` does not move the first occurrence of an unrelated character `x`. */
  lemma {:induction false} IndexOfAfterReplace(s: string, c: char, d: char, x: char)
    requires x != c && x != d
    ensures IndexOf(ReplaceFirst(s, c, [d]), x) == IndexOf(s, x)
  {
    if |s| > 0 && s[0] != c {
      IndexOfAfterReplace(s[1..], c, d, x);
      assert ReplaceFirst(s, c, [d])[1..] == ReplaceFirst(s[1..], c, [d]);
    } else if |s| > 0 {
      assert ReplaceFirst(s, c, [d])[1..] == s[1..];
    }
  }

  /** `.replace("\r", "")`: drops the first carriage return only (test/index.ts:46, 52). */
  function StripCarriageReturn(s: string): (r: string)
    ensures '\r' in s ==> |r| == |s| - 1
    ensures '\r' !in s ==> r == s
  {
    ReplaceFirstLength(s, '\r', []);
    ReplaceFirst(s, '\r', [])
  }

  /** The first occurrence of `c` is traded for `rep`; every other character stays. */
  lemma {:induction false} ReplaceFirstMultiset(s: string, c: char, rep: string)
    requires c in s
    ensures multiset(ReplaceFirst(s, c, rep)) == multiset(s) - multiset{c} + multiset(rep)
  {
    if s[0] == c {
      assert s == [s[0]] + s[1..];
    } else {
      assert c in s[1..] by {
        var j :| 0 <= j < |s| && s[j] == c;
        assert s[1..][j - 1] == c;
      }
      ReplaceFirstMultiset(s[1..], c, rep);
      assert s == [s[0]] + s[1..];
    }
  }

  /** Exactly one carriage return goes, and nothing else: the multiset loses one '\r'. */
  lemma StripRemovesOneCarriageReturn(s: string)
    ensures multiset(StripCarriageReturn(s)) == multiset(s) - multiset{'\r'}
  {
    if '\r' in s {
      ReplaceFirstMultiset(s, '\r', []);
    } else {
      assert multiset(s)['\r'] == 0;
    }
  }

  /** A file with Windows line endings keeps all but its first carriage return. */
  lemma SecondCarriageReturnSurvives()
    ensures StripCarriageReturn("a\r\nb\r\n") == "a\nb\r\n"
  {
  }

  /**
   * The whitespace rendering of a report line (test/index.ts:87): three
   * first-occurrence replacements in a row turn the first space, then the first
   * tab, then the first newline into a visible glyph; the length is kept.
   */
  function Render(line: string): (r: string)
    ensures |r| == |line|
  {
    var spaced := ReplaceFirst(line, ' ', [MiddleDot]);
    var tabbed := ReplaceFirst(spaced, '\t', [TwoEmDash]);
    ReplaceFirstLength(line, ' ', [MiddleDot]);
    ReplaceFirstLength(spaced, '\t', [TwoEmDash]);
    ReplaceFirstLength(tabbed, '\n', [ReturnArrow]);
    ReplaceFirst(tabbed, '\n', [ReturnArrow])
  }

  /** Position by position, Render changes only the first space, tab and newline. */
  lemma RenderAt(line: string, k: nat)
    requires k < |line|
    ensures Render(line)[k] ==
      if IndexOf(line, ' ') == Some(k) then MiddleDot
      else if IndexOf(line, '\t') == Some(k) then TwoEmDash
      else if IndexOf(line, '\n') == Some(k) then ReturnArrow
      else line[k]
  {
    var s1 := ReplaceFirst(line, ' ', [MiddleDot]);
    var s2 := ReplaceFirst(s1, '\t', [TwoEmDash]);
    ReplaceFirstCharAt(line, ' ', MiddleDot, k);
    ReplaceFirstCharAt(s1, '\t', TwoEmDash, k);
    ReplaceFirstCharAt(s2, '\n', ReturnArrow, k);
    IndexOfAfterReplace(line, ' ', MiddleDot, '\t');
    IndexOfAfterReplace(line, ' ', MiddleDot, '\n');
    IndexOfAfterReplace(s1, '\t', TwoEmDash, '\n');
  }

  /** A line without a space, a tab or a newline is shown as it is. */
  lemma RenderPlain(line: string)
    requires ' ' !in line && '\t' !in line && '\n' !in line
    ensures Render(line) == line
  {
    ReplaceFirstLength(line, ' ', [MiddleDot]);
    ReplaceFirstLength(line, '\t', [TwoEmDash]);
    ReplaceFirstLength(line, '\n', [ReturnArrow]);
  }

  /** A second space in a line stays a plain space. */
  lemma RenderKeepsLaterSpaces()
    ensures Render("a b c") == ['a', MiddleDot, 'b', ' ', 'c']
  {
    var s := "a b c";
    assert ReplaceFirst(s, ' ', [MiddleDot]) == ['a', MiddleDot, 'b', ' ', 'c'] by {
      assert s[1..] == " b c";
    }
    var s1 := ['a', MiddleDot, 'b', ' ', 'c'];
    assert '\t' !in s1 && '\n' !in s1;
    ReplaceFirstLength(s1, '\t', [TwoEmDash]);
    ReplaceFirstLength(s1, '\n', [ReturnArrow]);
  }
}
