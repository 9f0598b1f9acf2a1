/** Common-indent detection and stripping, as the `hbs` rule performs it on the
    lines of a template (lib/rules/check-hbs-template-literals.js:75-95).

    Round `k` of the detection looks at the character at depth `k` of every
    line. A line too short to have one is skipped. The round succeeds when at
    least one line has a character there, and every such character is a space
    or a tab and they are all the same. The detected indent is the first depth
    whose round fails. The character may differ from one depth to the next:
    `" \tx"` and `" \ty"` share an indent of 2. */
module Indent {
  import opened Wrappers
  import opened JsStrings

  predicate IsIndentChar(c: char) {
    c == ' ' || c == '\t'
  }

  /** `line[k]` is defined (JavaScript: not `undefined`). */
  predicate Reaches(line: string, k: nat) {
    k < |line|
  }

  /** Round `k` of the detection succeeds. */
  predicate RoundOk(lines: seq<string>, k: nat) {
    (exists j :: 0 <= j < |lines| && Reaches(lines[j], k)) &&
    (forall j :: 0 <= j < |lines| && Reaches(lines[j], k) ==> IsIndentChar(lines[j][k])) &&
    (forall j1, j2 ::
       0 <= j1 < |lines| && 0 <= j2 < |lines| && Reaches(lines[j1], k) && Reaches(lines[j2], k) ==>
         lines[j1][k] == lines[j2][k])
  }

  /** The length of the longest line (0 for no lines). */
  function MaxLen(lines: seq<string>): (m: nat)
    ensures forall j :: 0 <= j < |lines| ==> |lines[j]| <= m
    ensures |lines| > 0 ==> exists j :: 0 <= j < |lines| && |lines[j]| == m
    decreases |lines|
  {
    if |lines| == 0 then 0
    else
      var rest := MaxLen(lines[1..]);
      assert forall j :: 1 <= j < |lines| ==> lines[j] == lines[1..][j - 1];
      if |lines[0]| >= rest then |lines[0]| else rest
  }

  /** A round can only succeed below the length of the longest line. */
  lemma {:induction false} RoundOkBelowMax(lines: seq<string>, k: nat)
    requires RoundOk(lines, k)
    ensures k < MaxLen(lines)
  {
    var j :| 0 <= j < |lines| && Reaches(lines[j], k);
  }

  /** The first failing round at depth `k` or above. */
  function CountFrom(lines: seq<string>, k: nat): (r: nat)
    ensures k <= r
    ensures forall i :: k <= i < r ==> RoundOk(lines, i)
    ensures !RoundOk(lines, r)
    ensures r <= MaxLen(lines) || r == k
    decreases MaxLen(lines) - k
  {
    if RoundOk(lines, k) then
      RoundOkBelowMax(lines, k);
      CountFrom(lines, k + 1)
    else k
  }

  /** The common indent of `lines`: every round below it succeeds, the round at
      it fails, and it never exceeds the longest line. */
  function CommonIndent(lines: seq<string>): (r: nat)
    ensures forall i :: 0 <= i < r ==> RoundOk(lines, i)
    ensures !RoundOk(lines, r)
    ensures r <= MaxLen(lines)
  {
    CountFrom(lines, 0)
  }

  /** Soundness and maximality determine the common indent. */
  lemma {:induction false} CommonIndentIs(lines: seq<string>, n: nat)
    requires forall i :: 0 <= i < n ==> RoundOk(lines, i)
    requires !RoundOk(lines, n)
    ensures CommonIndent(lines) == n
  {
  }

  /** A line whose character at depth `k` is not a space or tab fails round `k`. */
  lemma {:induction false} OffCharFailsRound(lines: seq<string>, k: nat, j: nat)
    requires j < |lines| && Reaches(lines[j], k) && !IsIndentChar(lines[j][k])
    ensures !RoundOk(lines, k)
  {
  }

  /** Two lines with different characters at depth `k` fail round `k`. */
  lemma {:induction false} MismatchFailsRound(lines: seq<string>, k: nat, j1: nat, j2: nat)
    requires j1 < |lines| && j2 < |lines| && Reaches(lines[j1], k) && Reaches(lines[j2], k)
    requires lines[j1][k] != lines[j2][k]
    ensures !RoundOk(lines, k)
  {
  }

  /** After a full scan of depth `k` without a mismatch, the round succeeds
      exactly when some line reached the depth. */
  lemma {:induction false} ScanDecidesRound(lines: seq<string>, k: nat, testChar: Option<char>)
    requires testChar.None? <==> forall j :: 0 <= j < |lines| ==> !Reaches(lines[j], k)
    requires testChar.Some? ==>
      forall j :: 0 <= j < |lines| && Reaches(lines[j], k) ==>
        lines[j][k] == testChar.value && IsIndentChar(lines[j][k])
    ensures testChar.Some? <==> RoundOk(lines, k)
  {
  }

  /** One round of the detection: the `for` loop of lines 80-91 at depth
      `countSame`, after `testChar` is reset (line 79). `testChar` is taken
      from the first line that reaches the depth; the loop `break`s, clearing
      `testChar`, on the first line whose character there is not a space or a
      tab or differs from `testChar`. The round succeeds exactly when
      `testChar` is still set afterwards, and then it is the character every
      reaching line has at that depth. */
  method ScanDepth(lines: seq<string>, countSame: nat) returns (testChar: Option<char>)
    ensures testChar.Some? <==> RoundOk(lines, countSame)
    ensures testChar.Some? ==>
      forall j :: 0 <= j < |lines| && Reaches(lines[j], countSame) ==> lines[j][countSame] == testChar.value
  {
    testChar := None;
    var i := 0;
    while i < |lines|
      invariant 0 <= i <= |lines|
      invariant testChar.None? <==> forall j :: 0 <= j < i ==> !Reaches(lines[j], countSame)
      invariant testChar.Some? ==>
        forall j :: 0 <= j < i && Reaches(lines[j], countSame) ==>
          lines[j][countSame] == testChar.value && IsIndentChar(lines[j][countSame])
    {
      var line := lines[i];
      if testChar.None? {
        testChar := CharAt(line, countSame);
      }
      var curChar := CharAt(line, countSame);
      var isBlankLine := curChar.None?;
      var isWhitespace := curChar == Some(' ') || curChar == Some('\t');
      if !isBlankLine && (!isWhitespace || curChar != testChar) {
        if !isWhitespace {
          OffCharFailsRound(lines, countSame, i);
        } else {
          var j :| 0 <= j < i && Reaches(lines[j], countSame);
          MismatchFailsRound(lines, countSame, j, i);
        }
        testChar := None;
        return;
      }
      i := i + 1;
    }
    ScanDecidesRound(lines, countSame, testChar);
  }

  /** The detection loop of lines 75-92: `countSame` starts at -1 and each round
      of the `do ... while` increments it and runs ScanDepth; the loop goes on
      while `testChar` is set. It stops on every input, because no line
      reaches a depth at or past the longest line. */
  method DetectIndent(lines: seq<string>) returns (countSame: nat)
    ensures forall i :: 0 <= i < countSame ==> RoundOk(lines, i)
    ensures !RoundOk(lines, countSame)
    ensures countSame <= MaxLen(lines)
    ensures countSame == CommonIndent(lines)
  {
    var count: int := -1;
    var testChar: Option<char> := None;
    var more := true;
    while more
      invariant -1 <= count <= MaxLen(lines)
      invariant forall i :: 0 <= i < count ==> RoundOk(lines, i)
      invariant more ==> count == -1 || RoundOk(lines, count)
      invariant !more ==> count >= 0 && !RoundOk(lines, count)
      decreases if more then MaxLen(lines) + 1 - count else 0
    {
      if count >= 0 {
        RoundOkBelowMax(lines, count);
      }
      count := count + 1;
      testChar := ScanDepth(lines, count);
      more := testChar.Some?;
    }
    countSame := count;
    CommonIndentIs(lines, countSame);
  }

  /** `lines.map(line => line.substr(k))`. */
  function Strip(lines: seq<string>, k: nat): (r: seq<string>)
    ensures |r| == |lines|
  {
    seq(|lines|, j requires 0 <= j < |lines| => Substr(lines[j], k))
  }

  /** Depth `i` of a stripped line is depth `k + i` of the original line. */
  lemma {:induction false} StripAt(lines: seq<string>, k: nat, j: nat, i: nat)
    requires j < |lines|
    ensures Reaches(Strip(lines, k)[j], i) <==> Reaches(lines[j], k + i)
    ensures Reaches(lines[j], k + i) ==> Strip(lines, k)[j][i] == lines[j][k + i]
  {
  }

  /** Round `i` on the stripped lines is round `k + i` on the original ones. */
  lemma {:induction false} RoundShift(lines: seq<string>, k: nat, i: nat)
    ensures RoundOk(Strip(lines, k), i) <==> RoundOk(lines, k + i)
  {
    var s := Strip(lines, k);
    forall j | 0 <= j < |lines|
      ensures Reaches(s[j], i) <==> Reaches(lines[j], k + i)
      ensures Reaches(lines[j], k + i) ==> s[j][i] == lines[j][k + i]
    {
      StripAt(lines, k, j, i);
    }
    if RoundOk(lines, k + i) {
      var w :| 0 <= w < |lines| && Reaches(lines[w], k + i);
      assert Reaches(s[w], i);
    }
    if RoundOk(s, i) {
      var w :| 0 <= w < |s| && Reaches(s[w], i);
      assert Reaches(lines[w], k + i);
    }
  }

  /** Stripping `k` characters, for `k` up to the common indent, lowers the
      common indent by exactly `k`. */
  lemma {:induction false} StripShiftsIndent(lines: seq<string>, k: nat)
    requires k <= CommonIndent(lines)
    ensures CommonIndent(Strip(lines, k)) == CommonIndent(lines) - k
  {
    var n := CommonIndent(lines);
    forall i | 0 <= i < n - k
      ensures RoundOk(Strip(lines, k), i)
    {
      RoundShift(lines, k, i);
    }
    RoundShift(lines, k, n - k);
    CommonIndentIs(Strip(lines, k), n - k);
  }

  /** Running the detection again on the stripped lines finds no indent. */
  lemma {:induction false} StripRemovesIndent(lines: seq<string>)
    ensures CommonIndent(Strip(lines, CommonIndent(lines))) == 0
  {
    StripShiftsIndent(lines, CommonIndent(lines));
  }

  /** `after` is `line` with its first `k` characters removed (all of it when
      it is shorter), and every removed character is a space or a tab. */
  predicate DedentedLine(line: string, k: nat, after: string) {
    var cut := if k <= |line| then k else |line|;
    line == line[..cut] + after &&
    forall i :: 0 <= i < cut ==> IsIndentChar(line[i])
  }

  /** Every stripped line is its original line with a prefix removed: the
      first `CommonIndent` characters, or the whole line when it is shorter,
      and every removed character is a space or a tab. */
  lemma {:induction false} StrippedPrefixIsIndent(lines: seq<string>, j: nat)
    requires j < |lines|
    ensures DedentedLine(lines[j], CommonIndent(lines), Strip(lines, CommonIndent(lines))[j])
  {
    var k := CommonIndent(lines);
    forall i | 0 <= i < k && i < |lines[j]|
      ensures IsIndentChar(lines[j][i])
    {
      assert RoundOk(lines, i);
      assert Reaches(lines[j], i);
    }
  }

  /** A stripped line holds no newline when its original held none. */
  lemma {:induction false} StripKeepsNoNewline(lines: seq<string>, k: nat)
    requires NoNewlines(lines)
    ensures NoNewlines(Strip(lines, k))
  {
    forall j | 0 <= j < |lines|
      ensures '\n' !in Strip(lines, k)[j]
    {
      var s := Strip(lines, k)[j];
      if k <= |lines[j]| {
        assert s == lines[j][k..];
        assert forall c :: c in lines[j][k..] ==> c in lines[j];
      }
    }
  }

  /** An empty line never reaches any depth, so dropping one changes no round. */
  lemma {:induction false} DropEmptyKeepsRound(lines: seq<string>, k: nat)
    requires |lines| > 0 && lines[|lines| - 1] == ""
    ensures RoundOk(lines[..|lines| - 1], k) <==> RoundOk(lines, k)
  {
    var front := lines[..|lines| - 1];
    assert forall j :: 0 <= j < |front| ==> front[j] == lines[j];
    assert !Reaches(lines[|lines| - 1], k);
    if RoundOk(lines, k) {
      var w :| 0 <= w < |lines| && Reaches(lines[w], k);
      assert w < |front| && Reaches(front[w], k);
    }
    if RoundOk(front, k) {
      var w :| 0 <= w < |front| && Reaches(front[w], k);
      assert Reaches(lines[w], k);
    }
  }

  /** Dropping a trailing empty line keeps the common indent. */
  lemma {:induction false} DropEmptyKeepsIndent(lines: seq<string>)
    requires |lines| > 0 && lines[|lines| - 1] == ""
    ensures CommonIndent(lines[..|lines| - 1]) == CommonIndent(lines)
  {
    var n := CommonIndent(lines);
    var front := lines[..|lines| - 1];
    forall i | 0 <= i < n
      ensures RoundOk(front, i)
    {
      DropEmptyKeepsRound(lines, i);
    }
    DropEmptyKeepsRound(lines, n);
    CommonIndentIs(front, n);
  }
}
