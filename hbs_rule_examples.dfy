/** Worked examples of the `hbs` rule: the common-indent detection on small line
    lists, whole-template normalisation, and two-line templates taken end to
    end to their report. */
module HbsRuleExamples {
  import opened Wrappers
  import opened JsStrings
  import opened Indent
  import opened HbsRule

  /** Every line starts with two spaces: the indent is 2 and stripping it
      leaves the bare text. */
  lemma UniformIndent()
    ensures CommonIndent(["  a", "  b", "  c"]) == 2
    ensures Strip(["  a", "  b", "  c"], 2) == ["a", "b", "c"]
  {
    UniformIndentDepth(["  a", "  b", "  c"]);
    UniformIndentStrip(["  a", "  b", "  c"]);
  }

  lemma {:induction false} UniformIndentDepth(lines: seq<string>)
    requires lines == ["  a", "  b", "  c"]
    ensures CommonIndent(lines) == 2
  {
    assert Reaches(lines[0], 0) && Reaches(lines[0], 1);
    OffCharFailsRound(lines, 2, 0);
    CommonIndentIs(lines, 2);
  }

  lemma {:induction false} UniformIndentStrip(lines: seq<string>)
    requires lines == ["  a", "  b", "  c"]
    ensures Strip(lines, 2) == ["a", "b", "c"]
  {
    assert Strip(lines, 2)[0] == "a";
  }

  /** An empty line is too short for every depth and does not stop the detection. */
  lemma BlankLineTolerated()
    ensures CommonIndent(["  a", "", "  b"]) == 2
  {
    var lines := ["  a", "", "  b"];
    assert Reaches(lines[0], 0) && Reaches(lines[0], 1);
    OffCharFailsRound(lines, 2, 0);
    CommonIndentIs(lines, 2);
  }

  /** A space and a tab at the same depth stop the detection there. */
  lemma MismatchStops()
    ensures CommonIndent(["  a", "\tb"]) == 0
  {
    var lines := ["  a", "\tb"];
    MismatchFailsRound(lines, 0, 0, 1);
    CommonIndentIs(lines, 0);
  }

  /** Only a line too short for a depth is skipped: a line holding just a tab
      takes part in round 0 and, against the spaces, ends the detection. */
  lemma WhitespaceOnlyLineCounts()
    ensures CommonIndent(["  a", "\t", "  b"]) == 0
  {
    var lines := ["  a", "\t", "  b"];
    MismatchFailsRound(lines, 0, 0, 1);
    CommonIndentIs(lines, 0);
  }

  /** The indent need not be one repeated character: a space then a tab,
      shared by both lines, is an indent of 2. */
  lemma MixedIndent()
    ensures CommonIndent([" \tx", " \ty"]) == 2
  {
    var lines := [" \tx", " \ty"];
    assert Reaches(lines[0], 0) && Reaches(lines[0], 1);
    OffCharFailsRound(lines, 2, 0);
    CommonIndentIs(lines, 2);
  }

  /** Normalisation of a text whose split is known: any list of newline-free
      lines that joins to the text. */
  lemma {:induction false} NormalizeVia(raw: string, split: seq<string>)
    requires |split| >= 1 && NoNewlines(split)
    requires Join(split) == raw
    ensures var lines := HeadTrim(split);
      Normalize(raw) == Join(TailTrim(Strip(lines, CommonIndent(lines))))
  {
    SplitJoin(split);
  }

  /** A one-line template of spaces and tabs only, in any mix, has its whole
      length as indent (a single line never disagrees with itself), so the
      strip empties it and the tail trim drops it: the linter sees `""`. */
  lemma {:induction false} AllWhitespace(raw: string)
    requires forall i :: 0 <= i < |raw| ==> IsIndentChar(raw[i])
    ensures |raw| > 0 ==> CommonIndent(Split(raw)) == |raw|
    ensures Normalize(raw) == ""
  {
    if |raw| == 0 {
      NormalizeEmpty();
    } else {
      var lines := [raw];
      OneLineSplit(raw, lines);
      SplitJoin(lines);
      OneLineIndent(raw);
      assert Strip(lines, |raw|)[0] == "";
      NormalizeVia(raw, lines);
    }
  }

  lemma {:induction false} OneLineSplit(raw: string, lines: seq<string>)
    requires lines == [raw] && forall i :: 0 <= i < |raw| ==> IsIndentChar(raw[i])
    ensures |lines| >= 1 && NoNewlines(lines) && Join(lines) == raw
  {
  }

  lemma {:induction false} OneLineIndent(raw: string)
    requires forall i :: 0 <= i < |raw| ==> IsIndentChar(raw[i])
    ensures CommonIndent([raw]) == |raw|
  {
    var lines := [raw];
    forall i | 0 <= i < |raw|
      ensures RoundOk(lines, i)
    {
      assert Reaches(lines[0], i);
    }
    CommonIndentIs(lines, |raw|);
  }

  /** The tail trim runs after stripping, so a last line holding only the
      indent is dropped: `"  " + a + "\n  "` reaches the linter as `a`. */
  lemma {:induction false} IndentOnlyLastLineDropped(a: string)
    requires '\n' !in a && |a| > 0 && !IsIndentChar(a[0])
    ensures Normalize("  " + a + "\n  ") == a
  {
    var lines := ["  " + a, "  "];
    IndentedKeepsNoNewline(a);
    assert Join(lines) == "  " + a + "\n  ";
    IndentOnlyLastLineIndent(a, lines);
    IndentOnlyLastLineStrip(a, lines);
    NormalizeVia("  " + a + "\n  ", lines);
  }

  lemma {:induction false} IndentOnlyLastLineIndent(a: string, lines: seq<string>)
    requires lines == ["  " + a, "  "] && |a| > 0 && !IsIndentChar(a[0])
    ensures CommonIndent(lines) == 2
  {
    assert Reaches(lines[0], 0) && Reaches(lines[0], 1);
    assert lines[0][2] == a[0];
    OffCharFailsRound(lines, 2, 0);
    CommonIndentIs(lines, 2);
  }

  lemma {:induction false} IndentOnlyLastLineStrip(a: string, lines: seq<string>)
    requires lines == ["  " + a, "  "]
    ensures HeadTrim(lines) == lines
    ensures Join(TailTrim(Strip(lines, 2))) == a
  {
    assert lines[0][2..] == a;
    assert Strip(lines, 2) == [a, ""];
    assert TailTrim([a, ""]) == [a];
  }

  /** Only one leading empty line is dropped, so normalising twice can differ
      from normalising once: `"\n\n" + x` normalises to `"\n" + x`, and that
      to `x`. */
  lemma {:induction false} NormalizeTwiceDiffers(x: string)
    requires '\n' !in x && |x| > 0 && !IsIndentChar(x[0])
    ensures Normalize("\n\n" + x) == "\n" + x
    ensures Normalize(Normalize("\n\n" + x)) == x
  {
    NormalizeDropsFirstEmptyLine(x);
    NormalizeDropsLastEmptyLine(x);
  }

  lemma {:induction false} NormalizeDropsFirstEmptyLine(x: string)
    requires '\n' !in x && |x| > 0 && !IsIndentChar(x[0])
    ensures Normalize("\n\n" + x) == "\n" + x
  {
    var split := ["", "", x];
    var kept := ["", x];
    assert Join(kept) == "\n" + x;
    assert Join(split) == "" + "\n" + Join(kept);
    assert HeadTrim(split) == kept;
    NoIndent(kept, 1);
    StripNothing(kept);
    assert TailTrim(kept) == kept;
    NormalizeVia("\n\n" + x, split);
  }

  lemma {:induction false} NormalizeDropsLastEmptyLine(x: string)
    requires '\n' !in x && |x| > 0 && !IsIndentChar(x[0])
    ensures Normalize("\n" + x) == x
  {
    var split := ["", x];
    var kept := [x];
    assert Join(split) == "\n" + x;
    assert HeadTrim(split) == kept;
    NoIndent(kept, 0);
    StripNothing(kept);
    assert TailTrim(kept) == kept;
    NormalizeVia("\n" + x, split);
  }

  /** A line that starts with a character other than a space or tab leaves no indent. */
  lemma {:induction false} NoIndent(lines: seq<string>, j: nat)
    requires j < |lines| && |lines[j]| > 0 && !IsIndentChar(lines[j][0])
    ensures CommonIndent(lines) == 0
  {
    OffCharFailsRound(lines, 0, j);
    CommonIndentIs(lines, 0);
  }

  /** A name that is not `hbs`, or a quasi that is not a `TemplateLiteral`,
      never yields a report, whatever the text and the linter. */
  lemma {:induction false} OtherNodesSilent(node: Node, verify: string -> seq<LintResult>)
    requires node.tagName != Some("hbs") || node.quasi.kind != "TemplateLiteral"
    ensures ReportFor(node, verify) == None
  {
  }

  /** The first line of a message is the text before its first newline. */
  lemma {:induction false} FirstLineIs(p: string, q: string)
    requires '\n' !in p
    ensures FirstLine(p + "\n" + q) == p
  {
    var t := "\n" + q;
    assert t[0] == '\n' && t[1..] == q;
    assert Split(t)[0] == "";
    assert p + "\n" + q == p + t;
    SplitAppend(p, t);
    assert p + "" == p;
  }

  /** A template that opens and closes on its own lines, with two lines
      indented by two spaces, taken end to end: the linter sees the bare lines,
      and its one result, whose message has two lines, becomes a one-line
      summary holding the count and the message's first line. */
  lemma {:induction false} TwoLineReport(a: string, b: string, first: string, rest: string,
                                         verify: string -> seq<LintResult>)
    requires '\n' !in a && '\n' !in b && '\n' !in first
    requires |a| > 0 && !IsIndentChar(a[0])
    requires verify(a + "\n" + b) == [LintResult(first + "\n" + rest)]
    ensures ReportFor(Node(Some("hbs"), Quasi("TemplateLiteral", "\n  " + a + "\n  " + b + "\n", [])), verify)
      == Some("1" + ErrorsInfix + first)
  {
    var raw := "\n  " + a + "\n  " + b + "\n";
    TwoLineTemplate(a, b);
    var results := verify(Normalize(raw));
    OneResultSummary(results, first, rest);
    ReportForTemplate(Node(Some("hbs"), Quasi("TemplateLiteral", raw, [])), verify, results);
  }

  /** A single result is summarised by the count 1 and its first line. */
  lemma {:induction false} OneResultSummary(results: seq<LintResult>, first: string, rest: string)
    requires |results| == 1 && results[0].message == first + "\n" + rest
    requires '\n' !in first
    ensures Summary(results) == "1" + ErrorsInfix + first
  {
    FirstLineIs(first, rest);
    assert NatToString(1) == "1";
  }

  /** A template that opens and closes on its own lines, with two lines of
      text indented by two spaces, reaches the linter as the two bare lines. */
  lemma {:induction false} TwoLineTemplate(a: string, b: string)
    requires '\n' !in a && '\n' !in b
    requires |a| > 0 && !IsIndentChar(a[0])
    ensures Normalize("\n  " + a + "\n  " + b + "\n") == a + "\n" + b
  {
    var split := ["", "  " + a, "  " + b, ""];
    assert HeadTrim(split) == split[1..];
    TwoLineSplit(a, b);
    TwoLineIndent(a, b);
    TwoLineStrip(a, b);
    NormalizeVia("\n  " + a + "\n  " + b + "\n", split);
  }

  lemma {:induction false} TwoLineSplit(a: string, b: string)
    requires '\n' !in a && '\n' !in b
    ensures var split := ["", "  " + a, "  " + b, ""];
      Join(split) == "\n  " + a + "\n  " + b + "\n" &&
      NoNewlines(split)
  {
    TwoLineJoin("  " + a, "  " + b);
    IndentedKeepsNoNewline(a);
    IndentedKeepsNoNewline(b);
    assert "\n" + ("  " + a) + "\n" + ("  " + b) + "\n" == "\n  " + a + "\n  " + b + "\n";
  }

  lemma {:induction false} TwoLineJoin(lineA: string, lineB: string)
    ensures Join(["", lineA, lineB, ""]) == "\n" + lineA + "\n" + lineB + "\n"
  {
    var split := ["", lineA, lineB, ""];
    assert Join(split[3..]) == "";
    assert Join(split[2..]) == lineB + "\n";
    assert Join(split[1..]) == lineA + "\n" + (lineB + "\n");
  }

  lemma {:induction false} IndentedKeepsNoNewline(a: string)
    requires '\n' !in a
    ensures '\n' !in "  " + a
  {
    assert forall c :: c in "  " + a ==> c == ' ' || c in a;
  }

  lemma {:induction false} TwoLineIndent(a: string, b: string)
    requires |a| > 0 && !IsIndentChar(a[0])
    ensures CommonIndent(["  " + a, "  " + b, ""]) == 2
  {
    var lines := ["  " + a, "  " + b, ""];
    assert Reaches(lines[0], 0) && Reaches(lines[0], 1);
    assert lines[0][2] == a[0];
    OffCharFailsRound(lines, 2, 0);
    CommonIndentIs(lines, 2);
  }

  lemma {:induction false} TwoLineStrip(a: string, b: string)
    ensures Strip(["  " + a, "  " + b, ""], 2) == [a, b, ""]
    ensures Join(TailTrim([a, b, ""])) == a + "\n" + b
  {
    var lineA, lineB := "  " + a, "  " + b;
    assert lineA[2..] == a && lineB[2..] == b;
    assert [a, b, ""][..2] == [a, b];
  }
}
