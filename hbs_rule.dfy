/** The `check-hbs-template-literals` rule (lib/rules/check-hbs-template-literals.js):
    its set-up from the rule options, and its `TaggedTemplateExpression` visitor,
    which de-indents the text of an `hbs` template, hands it to the template
    linter and reports one summary message when the linter finds anything.

    The template linter (`ember-template-lint`) is a parameter `verify` from the
    normalised text to its result list; the file-system checks and the JSON
    parser used at set-up are parameters too. */
module HbsRule {
  import opened Wrappers
  import opened JsStrings
  import opened Indent

  /** `node.quasi`: its node `type`, `head` = `quasis[0].value.cooked`, and the
      cooked text of any later quasis (present when the literal has `${}`
      substitutions; the rule never reads them). */
  datatype Quasi = Quasi(kind: string, head: string, rest: seq<string>)

  /** A `TaggedTemplateExpression`; `tagName` is `node.tag.name`, `None` when the
      tag is not a plain identifier (`a.b`, a call, ...). */
  datatype Node = Node(tagName: Option<string>, quasi: Quasi)

  /** One entry of the template linter's result list. */
  datatype LintResult = LintResult(message: string)

  /** An entry of `context.options`: the indent option at position 0, the
      `{ConfigFile}` object at position 1. */
  datatype RuleOption = IndentTab | IndentSize(size: nat) | Extended(configFile: Option<string>)

  /** The template linter built by `create`, with the parsed configuration `C`. */
  datatype Linter<C> = DefaultLinter | ConfiguredLinter(config: C)

  /** The outcome of `create`: a linter, or the exception thrown by
      `JSON.parse` (or the read) for the configuration file. */
  datatype Setup<C> = Ready(linter: Linter<C>) | ConfigParseError(path: string)

  /** `context.options[1].ConfigFile`, when there is a second option. */
  function ConfigFileName(options: seq<RuleOption>): Option<string> {
    if |options| > 1 && options[1].Extended? then options[1].configFile else None
  }

  /** `filename && fs.existsSync(filename)`: a non-empty name of an existing file. */
  predicate WantsConfigFile(options: seq<RuleOption>, fileExists: string -> bool) {
    var name := ConfigFileName(options);
    name.Some? && name.value != "" && fileExists(name.value)
  }

  /** `create` (lines 48-60): a configured linter exactly when a second option
      names an existing file whose contents parse; a parse failure is fatal;
      otherwise the default linter. The indent option is never read. */
  method Create<C>(options: seq<RuleOption>, fileExists: string -> bool, readConfig: string -> Option<C>)
    returns (setup: Setup<C>)
    ensures !WantsConfigFile(options, fileExists) ==> setup == Ready(DefaultLinter)
    ensures WantsConfigFile(options, fileExists) ==>
      var name := ConfigFileName(options).value;
      (setup.ConfigParseError? <==> readConfig(name).None?) &&
      (setup.ConfigParseError? ==> setup.path == name) &&
      (setup.Ready? ==> setup.linter.ConfiguredLinter? && readConfig(name) == Some(setup.linter.config))
  {
    var linter: Option<Linter<C>> := None;
    if |options| > 1 {
      var extendedOptions := options[1];
      var filename := if extendedOptions.Extended? then extendedOptions.configFile else None;
      if filename.Some? && filename.value != "" && fileExists(filename.value) {
        var config := readConfig(filename.value);
        if config.None? {
          return ConfigParseError(filename.value);
        }
        linter := Some(ConfiguredLinter(config.value));
      }
    }
    if linter.None? {
      linter := Some(DefaultLinter);
    }
    setup := Ready(linter.value);
  }

  /** The visitor acts on a node only when its tag is the identifier `hbs` and
      its quasi is a `TemplateLiteral` (lines 68-69). */
  predicate IsHbsTemplate(node: Node) {
    node.tagName == Some("hbs") && node.quasi.kind == "TemplateLiteral"
  }

  /** Lines 72-74: the result is a suffix of the lines, at most one shorter, and
      shorter exactly when the first line is empty. */
  function HeadTrim(lines: seq<string>): (r: seq<string>)
    ensures |lines| - 1 <= |r| <= |lines|
    ensures forall j :: 0 <= j < |r| ==> r[j] == lines[j + |lines| - |r|]
    ensures |r| < |lines| <==> |lines| > 0 && lines[0] == ""
  {
    if |lines| > 0 && lines[0] == "" then lines[1..] else lines
  }

  /** Lines 96-98: the result is a prefix of the lines, at most one shorter, and
      shorter exactly when the last line is empty (an empty list stays empty). */
  function TailTrim(lines: seq<string>): (r: seq<string>)
    ensures |lines| - 1 <= |r| <= |lines|
    ensures forall j :: 0 <= j < |r| ==> r[j] == lines[j]
    ensures |r| < |lines| <==> |lines| > 0 && lines[|lines| - 1] == ""
  {
    if |lines| > 0 && lines[|lines| - 1] == "" then lines[..|lines| - 1] else lines
  }

  /** The lines handed to the linter, before they are joined (lines 71-98). */
  function NormalizedLines(raw: string): seq<string> {
    var lines := HeadTrim(Split(raw));
    TailTrim(Strip(lines, CommonIndent(lines)))
  }

  /** The text handed to the linter (lines 70-99): the normalised lines joined
      by newlines. It splits back into exactly those lines (no line holds a
      newline), and an empty line list gives the empty text. */
  function Normalize(raw: string): (text: string)
    ensures NormalizedLines(raw) == [] ==> text == ""
    ensures NormalizedLines(raw) != [] ==> Split(text) == NormalizedLines(raw)
  {
    var lines := NormalizedLines(raw);
    NormalizedLinesHaveNoNewline(raw);
    if lines == [] then "" else SplitJoin(lines); Join(lines)
  }

  /** `message.split('\n')[0]`: the prefix of the message before its first
      newline, or the whole message when it has none. */
  function FirstLine(message: string): (r: string)
    ensures '\n' !in r
    ensures r <= message
    ensures |r| < |message| ==> message[|r|] == '\n'
  {
    Split(message)[0]
  }

  const ErrorsInfix: string := " error(s): "

  /** Reads a summary message back: its leading count, written in decimal
      without leading zeros, and the text after `" error(s): "`. */
  function ParseSummary(msg: string): Option<(nat, string)> {
    var n := DigitRun(msg);
    if 0 < n && (msg[0] != '0' || n == 1) && ErrorsInfix <= msg[n..] then
      Some((ParseNat(msg[..n]), msg[n + |ErrorsInfix|..]))
    else None
  }

  /** A message that reads back is exactly the rendering of what it reads back to. */
  lemma {:induction false} ParseSummaryExact(msg: string)
    requires ParseSummary(msg).Some?
    ensures var (count, firstLine) := ParseSummary(msg).value;
      msg == NatToString(count) + ErrorsInfix + firstLine
  {
    var n := DigitRun(msg);
    var digits := msg[..n];
    NatToStringParseNat(digits);
    assert msg[n..] == ErrorsInfix + msg[n + |ErrorsInfix|..];
    assert msg == digits + msg[n..];
  }

  /** Reading back is one-to-one: two messages that read back to the same
      count and first line are the same message. */
  lemma {:induction false} ParseSummaryInjective(m1: string, m2: string)
    requires ParseSummary(m1).Some? && ParseSummary(m1) == ParseSummary(m2)
    ensures m1 == m2
  {
    ParseSummaryExact(m1);
    ParseSummaryExact(m2);
  }

  /** The message of line 103: `<count> error(s): <first line of the first
      message>`. It is a single line, and the count and the first line can be
      read back from it. */
  function Summary(results: seq<LintResult>): (msg: string)
    requires |results| > 0
    ensures '\n' !in msg
    ensures ParseSummary(msg) == Some((|results|, FirstLine(results[0].message)))
  {
    var firstLine := FirstLine(results[0].message);
    SummaryIsOneLine(|results|, firstLine);
    SummaryParsesBack(|results|, firstLine);
    NatToString(|results|) + ErrorsInfix + firstLine
  }

  lemma {:induction false} SummaryIsOneLine(n: nat, firstLine: string)
    requires '\n' !in firstLine
    ensures '\n' !in NatToString(n) + ErrorsInfix + firstLine
  {
    var count := NatToString(n);
    assert '\n' !in count;
    assert forall c :: c in count + ErrorsInfix + firstLine ==> c in count || c in ErrorsInfix || c in firstLine;
  }

  lemma {:induction false} SummaryParsesBack(n: nat, firstLine: string)
    ensures ParseSummary(NatToString(n) + ErrorsInfix + firstLine) == Some((n, firstLine))
  {
    var count := NatToString(n);
    var msg := count + ErrorsInfix + firstLine;
    assert msg[|count|] == ' ';
    DigitRunIs(msg, |count|);
    assert msg[..|count|] == count;
    assert msg[|count|..] == ErrorsInfix + firstLine;
    assert msg[|count| + |ErrorsInfix|..] == firstLine;
    ParseNatToString(n);
  }

  /** What the visitor reports for a node, given the linter's verdict on the
      normalised text: a message exactly when the node is an `hbs` template
      literal and the linter returned at least one result (lines 67-108). */
  function ReportFor(node: Node, verify: string -> seq<LintResult>): (report: Option<string>)
    ensures report.Some? <==> IsHbsTemplate(node) && |verify(Normalize(node.quasi.head))| > 0
    ensures report.Some? ==>
      var results := verify(Normalize(node.quasi.head));
      '\n' !in report.value &&
      ParseSummary(report.value) == Some((|results|, FirstLine(results[0].message)))
  {
    if IsHbsTemplate(node) then
      var results := verify(Normalize(node.quasi.head));
      if |results| != 0 then Some(Summary(results)) else None
    else None
  }

  /** The `TaggedTemplateExpression` visitor (lines 67-108), step by step; the
      returned message, if any, is what it passes to `context.report`. */
  method Visit(node: Node, verify: string -> seq<LintResult>) returns (report: Option<string>)
    ensures report == ReportFor(node, verify)
  {
    report := None;
    if node.tagName == Some("hbs") {
      if node.quasi.kind == "TemplateLiteral" {
        var hbs := node.quasi.head;
        ghost var raw := hbs;
        var lines := Split(hbs);
        if lines[0] == "" {
          lines := lines[1..];
        }
        assert lines == HeadTrim(Split(raw));
        var countSame := DetectIndent(lines);
        lines := Strip(lines, countSame);
        if |lines| > 0 && lines[|lines| - 1] == "" {
          lines := lines[..|lines| - 1];
        }
        assert lines == NormalizedLines(raw);
        hbs := Join(lines);
        var results := verify(hbs);
        ReportForTemplate(node, verify, results);
        if |results| != 0 {
          var firstLine := FirstLine(results[0].message);
          var msg := NatToString(|results|) + ErrorsInfix + firstLine;
          assert msg == Summary(results);
          report := Some(msg);
        }
      }
    }
  }

  /** `ReportFor` unfolded for an `hbs` template literal whose linter results
      are known; `Visit` uses this step to meet its postcondition. */
  lemma {:induction false} ReportForTemplate(node: Node, verify: string -> seq<LintResult>, results: seq<LintResult>)
    requires IsHbsTemplate(node) && results == verify(Join(NormalizedLines(node.quasi.head)))
    ensures ReportFor(node, verify) == if |results| != 0 then Some(Summary(results)) else None
  {
  }

  /** Only `quasis[0]` is read: later quasis never change the report. */
  lemma {:induction false} ReportIgnoresLaterQuasis(node: Node, rest: seq<string>, verify: string -> seq<LintResult>)
    ensures ReportFor(node.(quasi := node.quasi.(rest := rest)), verify) == ReportFor(node, verify)
  {
  }

  /** `out` is `lines` with a prefix of spaces and tabs removed from each line:
      the first `k` characters, or all of a shorter line. At most one line is
      missing at the end, and one is missing exactly when the removal empties
      the last line. */
  predicate DedentedLines(lines: seq<string>, k: nat, out: seq<string>) {
    |lines| - 1 <= |out| <= |lines| &&
    (|out| < |lines| <==> |lines| > 0 && Substr(lines[|lines| - 1], k) == "") &&
    forall j :: 0 <= j < |out| ==> DedentedLine(lines[j], k, out[j])
  }

  /** The lines handed to the linter are the template's lines after the head
      trim, dedented by their common indent. */
  lemma {:induction false} NormalizedLinesAreDedented(raw: string)
    ensures var lines := HeadTrim(Split(raw));
      DedentedLines(lines, CommonIndent(lines), NormalizedLines(raw))
  {
    TrimmedLinesAreDedented(HeadTrim(Split(raw)));
  }

  /** Stripping the common indent and then the tail trim dedent any line list. */
  lemma {:induction false} TrimmedLinesAreDedented(lines: seq<string>)
    ensures DedentedLines(lines, CommonIndent(lines), TailTrim(Strip(lines, CommonIndent(lines))))
  {
    var k := CommonIndent(lines);
    var out := TailTrim(Strip(lines, k));
    forall j | 0 <= j < |out|
      ensures DedentedLine(lines[j], k, out[j])
    {
      StrippedPrefixIsIndent(lines, j);
      assert out[j] == Strip(lines, k)[j];
    }
  }

  /** A last line no longer than the common indent (blank, or holding only
      indent characters) is emptied by the strip and dropped by the tail trim. */
  lemma {:induction false} ShortLastLineDropped(lines: seq<string>)
    requires |lines| > 0 && |lines[|lines| - 1]| <= CommonIndent(lines)
    ensures var stripped := Strip(lines, CommonIndent(lines));
      TailTrim(stripped) == stripped[..|lines| - 1]
  {
    var k := CommonIndent(lines);
    var stripped := Strip(lines, k);
    assert stripped[|lines| - 1] == Substr(lines[|lines| - 1], k) == "";
  }

  /** Running the detection again on the lines handed to the linter finds no
      common indent. */
  lemma {:induction false} NormalizedLinesHaveNoIndent(raw: string)
    ensures CommonIndent(NormalizedLines(raw)) == 0
  {
    var lines := HeadTrim(Split(raw));
    var stripped := Strip(lines, CommonIndent(lines));
    StripRemovesIndent(lines);
    if |stripped| > 0 && stripped[|stripped| - 1] == "" {
      DropEmptyKeepsIndent(stripped);
    }
  }

  lemma {:induction false} NormalizedLinesHaveNoNewline(raw: string)
    ensures NoNewlines(NormalizedLines(raw))
  {
    var lines := HeadTrim(Split(raw));
    TrimsKeepNoNewlines(Split(raw));
    StripKeepsNoNewline(lines, CommonIndent(lines));
    TrimsKeepNoNewlines(Strip(lines, CommonIndent(lines)));
  }

  lemma {:induction false} TrimsKeepNoNewlines(lines: seq<string>)
    requires NoNewlines(lines)
    ensures NoNewlines(HeadTrim(lines)) && NoNewlines(TailTrim(lines))
  {
  }

  /** An empty template splits into one empty line, which the head trim
      drops; the empty line list passes through unharmed. */
  lemma NormalizeEmpty()
    ensures NormalizedLines("") == []
    ensures Normalize("") == ""
  {
    assert Split("") == [""];
    var kept := HeadTrim(Split(""));
    assert kept == [];
    assert Strip(kept, CommonIndent(kept)) == [];
  }

  lemma {:induction false} StripNothing(lines: seq<string>)
    ensures Strip(lines, 0) == lines
  {
    assert forall j :: 0 <= j < |lines| ==> Strip(lines, 0)[j] == lines[j];
  }

  /** When the template neither starts nor ends with a newline and has no
      common indent, the text reaches the linter unchanged. */
  lemma {:induction false} NormalizeIdentity(raw: string)
    requires |raw| > 0 ==> raw[0] != '\n' && raw[|raw| - 1] != '\n'
    requires CommonIndent(Split(raw)) == 0
    ensures Normalize(raw) == raw
  {
    if |raw| == 0 {
      NormalizeEmpty();
    } else {
      PlainLinesKept(raw);
      JoinSplit(raw);
    }
  }

  lemma {:induction false} PlainLinesKept(raw: string)
    requires |raw| > 0 && raw[0] != '\n' && raw[|raw| - 1] != '\n'
    requires CommonIndent(Split(raw)) == 0
    ensures NormalizedLines(raw) == Split(raw)
  {
    FirstLineNonEmpty(raw);
    SplitLastNonEmpty(raw);
    PlainListKept(Split(raw));
  }

  lemma {:induction false} PlainListKept(lines: seq<string>)
    requires |lines| > 0 && lines[0] != "" && lines[|lines| - 1] != ""
    requires CommonIndent(lines) == 0
    ensures TailTrim(Strip(HeadTrim(lines), CommonIndent(HeadTrim(lines)))) == lines
  {
    StripNothing(lines);
  }

  lemma {:induction false} FirstLineNonEmpty(raw: string)
    requires |raw| > 0 && raw[0] != '\n'
    ensures Split(raw)[0] != ""
  {
    var rest := Split(raw[1..]);
    assert Split(raw) == [[raw[0]] + rest[0]] + rest[1..];
  }
}
