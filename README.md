# check-hbs-template-literals, modelled in Dafny

This project models the ESLint rule `check-hbs-template-literals` in
`lib/rules/check-hbs-template-literals.js`. The rule finds tagged templates
written as `hbs` followed by a template literal. It takes the literal's text
and removes the indent its lines share. It passes the result to the Handlebars
template linter (`ember-template-lint`). When the linter returns anything, the
rule reports one summary message for the node: `<count> error(s): <first line
of the first message>`.

The model has five modules:

- `Wrappers`: the `Option` type, which stands for JavaScript's `undefined`/`null`.
- `JsStrings`: the JavaScript string operations the rule uses, with their
  JavaScript semantics. These are `split('\n')`, `join('\n')`, `substr(k)`,
  indexing past the end, and the decimal rendering of a count in a template
  string. `Split` and `Join` are proved to be inverse to each other.
- `Indent`: the common-indent detection and the stripping.
  - `RoundOk` and `CommonIndent` define the detection declaratively.
    `CommonIndent` is the first depth at which a round fails.
  - The `do … while` loop and its inner `for … break` loop are the methods
    `DetectIndent` and `ScanDepth`. Both are proved against that definition.
  - `Strip` is the `map(substr)` step.
- `HbsRule`: set-up (`Create`), the node filter, the head and tail trims,
  `Normalize` (the text handed to the linter), the summary message, the
  visitor as a specification function `ReportFor`, and the visitor as a
  step-by-step method `Visit`. `Visit` is proved to agree with `ReportFor`.
- `HbsRuleExamples`: worked examples, including every two-line template of
  one shape taken end to end to its report.

The linter is a parameter `verify` from text to a list of results. The
file-existence check and the read-and-parse of the configuration file are
parameters `fileExists` and `readConfig`.

Facts about the code that the model keeps:

- **The detection always stops.** A round where no line reaches the depth
  leaves `testChar` `undefined`, and the `do … while` loop ends (lines 79-82
  and 92). So the loop stops on every input, including no lines and
  all-blank lines. `DetectIndent` proves this with a variant, with no bound
  added. The result is at most the length of the longest line.
- **Only the first text segment is read.** Line 70 reads `quasis[0]`, and
  there is no check for `${…}` substitutions. A template with substitutions
  is processed using its first segment (`ReportIgnoresLaterQuasis`).
- **The indent may mix spaces and tabs.** `testChar` is reset every round
  (line 79), so the character may differ from one depth to the next
  (`MixedIndent`).
- **Only the re-detection is idempotent.** After stripping, the common
  indent is 0 (`NormalizedLinesHaveNoIndent`). Normalising the whole text
  twice can still differ from normalising once, because each pass drops at
  most one empty line at each end (`NormalizeTwiceDiffers`).

## Model

| member | source | states |
|---|---|---|
| JsStrings.CharAt | lib/rules/check-hbs-template-literals.js:82-86 | `line[k]` is defined exactly when `k` is below the length, and is then the character at `k` |
| JsStrings.Split | lib/rules/check-hbs-template-literals.js:71 | `split('\n')` yields at least one piece; no piece holds a newline; the first piece is the prefix before the first newline |
| JsStrings.Join | lib/rules/check-hbs-template-literals.js:99 | `join('\n')`: the lines with one newline between each two, `""` for no lines; it is the inverse of `Split` (`JoinSplit`, `SplitJoin`) |
| JsStrings.JoinSplit | lib/rules/check-hbs-template-literals.js:71-99 | joining the pieces of a split with `'\n'` gives back the original text, for every text |
| JsStrings.SplitAppend | lib/rules/check-hbs-template-literals.js:71 | prepending newline-free text to a string only extends the first piece of its split |
| JsStrings.SplitJoin | lib/rules/check-hbs-template-literals.js:99 | splitting the join of a non-empty list of newline-free lines gives back exactly those lines |
| JsStrings.SplitLastNonEmpty | lib/rules/check-hbs-template-literals.js:71 | the last piece of a split is non-empty when the text is non-empty and does not end in a newline |
| JsStrings.Substr | lib/rules/check-hbs-template-literals.js:94 | `substr(k)` is the line minus its first `k` characters, or `""` when the line is not longer than `k` |
| JsStrings.NatToString | lib/rules/check-hbs-template-literals.js:103 | `${n}` is a non-empty run of decimal digits, with a leading `0` only for zero |
| JsStrings.ParseNatToString | lib/rules/check-hbs-template-literals.js:103 | reading the decimal rendering of a count back gives the count |
| JsStrings.DigitRun | lib/rules/check-hbs-template-literals.js:103 | the length of the leading digit run: all characters before it are digits, and the one at it is not |
| JsStrings.DigitRunIs | lib/rules/check-hbs-template-literals.js:103 | a digit run is determined by where the digits stop |
| JsStrings.NatToStringParseNat | lib/rules/check-hbs-template-literals.js:103 | a digit string without a leading zero (other than `"0"`) is the decimal rendering of its value, so `${n}` is the only way to write `n` |
| Indent.MaxLen | lib/rules/check-hbs-template-literals.js:80-86 | bounds every line's length and is attained by some line |
| Indent.RoundOk | lib/rules/check-hbs-template-literals.js:79-91 | round `k` succeeds when some line is longer than `k`, and every such line has the same space or tab at position `k`; `ScanDecidesRound` and `ScanDepth` prove the inner loop decides exactly this, `CommonIndent` is the first depth where it fails |
| Indent.RoundOkBelowMax | lib/rules/check-hbs-template-literals.js:81-92 | a round can succeed only below the longest line's length, so the detection has a variant |
| Indent.CountFrom | lib/rules/check-hbs-template-literals.js:77-92 | from depth `k`, every round up to the result succeeds and the round at the result fails |
| Indent.CommonIndent | lib/rules/check-hbs-template-literals.js:75-92 | detection soundness (every round below the indent succeeds), maximality (the round at it fails), and the bound by the longest line |
| Indent.CommonIndentIs | lib/rules/check-hbs-template-literals.js:75-92 | soundness and maximality determine the indent uniquely |
| Indent.OffCharFailsRound | lib/rules/check-hbs-template-literals.js:86-87 | a line with a character other than a space or tab at depth `k` fails round `k` |
| Indent.MismatchFailsRound | lib/rules/check-hbs-template-literals.js:81-87 | two lines with different characters at depth `k` fail round `k` |
| Indent.ScanDecidesRound | lib/rules/check-hbs-template-literals.js:79-92 | after a full scan, the round succeeds exactly when `testChar` is set |
| Indent.ScanDepth | lib/rules/check-hbs-template-literals.js:79-91 | the inner `for … break` loop leaves `testChar` set exactly when the round succeeds, and then every reaching line has that character at the depth |
| Indent.DetectIndent | lib/rules/check-hbs-template-literals.js:75-92 | the `do … while` loop stops on every input with `countSame` sound, maximal, at most the longest line's length, and equal to `CommonIndent` |
| Indent.Strip | lib/rules/check-hbs-template-literals.js:93-95 | the map keeps the number of lines |
| Indent.StripAt | lib/rules/check-hbs-template-literals.js:93-95 | depth `i` of a stripped line is depth `k + i` of the original line |
| Indent.RoundShift | lib/rules/check-hbs-template-literals.js:77-95 | round `i` on the stripped lines succeeds exactly when round `k + i` succeeds on the original lines |
| Indent.StripShiftsIndent | lib/rules/check-hbs-template-literals.js:77-95 | stripping `k` characters, for `k` up to the indent, lowers the indent by exactly `k` |
| Indent.StripRemovesIndent | lib/rules/check-hbs-template-literals.js:77-95 | running the detection again on the stripped lines yields 0 |
| Indent.StrippedPrefixIsIndent | lib/rules/check-hbs-template-literals.js:77-95 | each line is its removed prefix (the first `countSame` characters, or all of a shorter line) followed by its stripped line, and every removed character is a space or tab |
| Indent.StripKeepsNoNewline | lib/rules/check-hbs-template-literals.js:93-95 | stripping adds no newline |
| Indent.DropEmptyKeepsRound | lib/rules/check-hbs-template-literals.js:81-98 | dropping a trailing empty line changes no round of the detection |
| Indent.DropEmptyKeepsIndent | lib/rules/check-hbs-template-literals.js:81-98 | dropping a trailing empty line keeps the common indent |
| HbsRule.Create | lib/rules/check-hbs-template-literals.js:48-60 | a configured linter exactly when a second option names a non-empty, existing file whose contents parse, carrying the parsed configuration; a parse failure is fatal; the default linter otherwise |
| HbsRule.ConfigFileName | lib/rules/check-hbs-template-literals.js:50-52 | the `ConfigFile` of the second option, absent when there is no second option or it has none; `Create` reads it |
| HbsRule.WantsConfigFile | lib/rules/check-hbs-template-literals.js:50-53 | a configuration file is loaded exactly when that name is present, non-empty and names an existing file; `Create` branches on exactly this |
| HbsRule.IsHbsTemplate | lib/rules/check-hbs-template-literals.js:68-69 | the node filter: the tag is the identifier `hbs` and the quasi is a `TemplateLiteral`; `ReportFor` reports only such nodes and `OtherNodesSilent` shows every other node is silent |
| HbsRule.HeadTrim | lib/rules/check-hbs-template-literals.js:72-74 | the result is a suffix of the lines, at most one shorter, and shorter exactly when the first line is empty |
| HbsRule.TailTrim | lib/rules/check-hbs-template-literals.js:96-98 | the result is a prefix of the lines, at most one shorter, and shorter exactly when the last line is empty; an empty list is kept |
| HbsRule.NormalizedLines | lib/rules/check-hbs-template-literals.js:70-98 | the lines handed to the linter; `NormalizedLinesAreDedented` states they are the head-trimmed lines dedented by their common indent, `NormalizedLinesHaveNoIndent` that no indent is left, `NormalizedLinesHaveNoNewline` that none holds a newline |
| HbsRule.FirstLine | lib/rules/check-hbs-template-literals.js:102 | `message.split('\n')[0]` is the newline-free prefix of the message that ends at its first newline |
| HbsRule.SummaryIsOneLine | lib/rules/check-hbs-template-literals.js:103 | the summary message holds no newline |
| HbsRule.SummaryParsesBack | lib/rules/check-hbs-template-literals.js:103 | the count and the first line can be read back from the summary message |
| HbsRule.Summary | lib/rules/check-hbs-template-literals.js:101-103 | the message is a single line that reads back to the result count and the first line of the first message; since reading back is one-to-one (`ParseSummaryInjective`), this fixes the message as exactly `<count> error(s): <firstLine>` |
| HbsRule.ParseSummaryExact | lib/rules/check-hbs-template-literals.js:103 | a message that reads back to a count and a first line is exactly the decimal count, `" error(s): "` and that first line |
| HbsRule.ParseSummaryInjective | lib/rules/check-hbs-template-literals.js:103 | two messages that read back to the same count and first line are equal |
| HbsRule.ReportFor | lib/rules/check-hbs-template-literals.js:67-108 | a report exactly when the tag is `hbs`, the quasi is a `TemplateLiteral` and the linter returns at least one result for the normalised text; the report is the one-line message that reads back to the result count and the first line of the first message, which fixes it exactly (`ParseSummaryInjective`) |
| HbsRule.Visit | lib/rules/check-hbs-template-literals.js:67-108 | the visitor, run step by step, reports exactly what `ReportFor` specifies |
| HbsRule.ReportForTemplate | lib/rules/check-hbs-template-literals.js:99-105 | the unfolding of `ReportFor` that `Visit` uses: for an `hbs` template literal, the summary when the linter's results are non-empty, and nothing otherwise |
| HbsRule.ReportIgnoresLaterQuasis | lib/rules/check-hbs-template-literals.js:68-70 | only the first quasi is read: later quasis never change the report |
| HbsRule.NormalizedLinesAreDedented | lib/rules/check-hbs-template-literals.js:71-98 | each line handed to the linter is the trimmed template line with a space/tab prefix of `CommonIndent` characters (or all of a shorter line) removed; at most one line is dropped at the end, and one is dropped exactly when the strip empties the last line (`DedentedLines`) |
| HbsRule.TrimmedLinesAreDedented | lib/rules/check-hbs-template-literals.js:75-98 | the same, stated for any line list after the head trim |
| HbsRule.ShortLastLineDropped | lib/rules/check-hbs-template-literals.js:93-98 | a last line no longer than the common indent (blank, or holding only indent) is emptied by the strip and dropped by the tail trim |
| HbsRule.NormalizedLinesHaveNoIndent | lib/rules/check-hbs-template-literals.js:75-99 | the detection run again on the lines handed to the linter yields 0 |
| HbsRule.Normalize | lib/rules/check-hbs-template-literals.js:70-99 | the text handed to the linter splits back into exactly the normalised lines, and is `""` when no line is left |
| HbsRule.NormalizedLinesHaveNoNewline | lib/rules/check-hbs-template-literals.js:71-98 | no line handed to the linter holds a newline |
| HbsRule.TrimsKeepNoNewlines | lib/rules/check-hbs-template-literals.js:72-98 | the trims add no newline |
| HbsRule.NormalizeEmpty | lib/rules/check-hbs-template-literals.js:71-99 | an empty template leaves no line and reaches the linter as `""` |
| HbsRule.StripNothing | lib/rules/check-hbs-template-literals.js:93-95 | stripping 0 characters keeps every line |
| HbsRule.NormalizeIdentity | lib/rules/check-hbs-template-literals.js:71-99 | when the indent is 0 and the text neither starts nor ends with a newline, the linter sees the text unchanged |
| HbsRule.PlainLinesKept | lib/rules/check-hbs-template-literals.js:71-98 | under the same conditions, the lines handed to the linter are the split of the text |
| HbsRule.PlainListKept | lib/rules/check-hbs-template-literals.js:72-98 | the trims and a strip of 0 keep a line list whose first and last lines are non-empty |
| HbsRule.FirstLineNonEmpty | lib/rules/check-hbs-template-literals.js:71-72 | a text not starting with a newline has a non-empty first line, so the head trim keeps it |
| HbsRuleExamples.UniformIndent | lib/rules/check-hbs-template-literals.js:75-95 | `["  a", "  b", "  c"]` has indent 2 and strips to `["a", "b", "c"]` |
| HbsRuleExamples.BlankLineTolerated | lib/rules/check-hbs-template-literals.js:84-87 | `["  a", "", "  b"]` has indent 2: the empty line does not stop the detection |
| HbsRuleExamples.MismatchStops | lib/rules/check-hbs-template-literals.js:86-89 | `["  a", "\tb"]` has indent 0: a space and a tab at the same depth end the detection there |
| HbsRuleExamples.WhitespaceOnlyLineCounts | lib/rules/check-hbs-template-literals.js:84-89 | `["  a", "\t", "  b"]` has indent 0: the line holding only a tab takes part in round 0 and, against the spaces, ends the detection |
| HbsRuleExamples.MixedIndent | lib/rules/check-hbs-template-literals.js:79-92 | `[" \tx", " \ty"]` has indent 2: a shared space-then-tab prefix |
| HbsRuleExamples.NormalizeVia | lib/rules/check-hbs-template-literals.js:71-99 | any newline-free line list that joins to the text is its split, so it determines the normalisation |
| HbsRuleExamples.AllWhitespace | lib/rules/check-hbs-template-literals.js:75-99 | a one-line template of spaces and tabs, in any mix, has its length as indent and reaches the linter as `""` |
| HbsRuleExamples.OneLineIndent | lib/rules/check-hbs-template-literals.js:77-92 | a single line of spaces and tabs passes every round below its length |
| HbsRuleExamples.IndentOnlyLastLineDropped | lib/rules/check-hbs-template-literals.js:93-98 | for every newline-free `a` not starting with a space or tab, `"  " + a + "\n  "` reaches the linter as `a`: the last line, holding only the indent, is emptied by the strip and then dropped |
| HbsRuleExamples.NormalizeTwiceDiffers | lib/rules/check-hbs-template-literals.js:72-74 | one leading empty line is dropped per pass: for every newline-free `x` not starting with a space or tab, `"\n\n" + x` normalises to `"\n" + x`, which normalises to `x` |
| HbsRuleExamples.NoIndent | lib/rules/check-hbs-template-literals.js:86-89 | a line starting with a character other than a space or tab leaves indent 0 |
| HbsRuleExamples.OtherNodesSilent | lib/rules/check-hbs-template-literals.js:68-69 | a node whose tag is not `hbs`, or whose quasi is not a `TemplateLiteral`, is never reported |
| HbsRuleExamples.FirstLineIs | lib/rules/check-hbs-template-literals.js:102 | the first line of `p + "\n" + q`, for newline-free `p`, is `p` |
| HbsRuleExamples.TwoLineTemplate | lib/rules/check-hbs-template-literals.js:71-99 | a template of two lines indented by two spaces, opening and closing on their own lines, reaches the linter as the two bare lines joined |
| HbsRuleExamples.TwoLineReport | lib/rules/check-hbs-template-literals.js:67-108 | for every such two-line template and a linter returning one two-line message, the report is `1 error(s): ` followed by the message's first line |
| HbsRuleExamples.OneResultSummary | lib/rules/check-hbs-template-literals.js:101-103 | a single result is summarised as `1 error(s): ` followed by its message's first line |

## Left out

- `ember-template-lint` is a foreign library. It is the parameter `verify`, from the normalised text to its result list. Each result is reduced to its `message`.
- The `moduleId: context.id` argument and the `hbs.toString()` call on line 100 are not modelled. The first is opaque to the rule; the second returns its string unchanged.
- `fs.existsSync`, `fs.readFileSync` and `JSON.parse` are file I/O and a foreign parser. They are the parameters `fileExists` and `readConfig`. A failed read or parse is the fatal outcome `ConfigParseError`. The configuration's contents are a type parameter.
- The `meta` block (lines 15-45) is a JSON Schema that ESLint checks before the rule runs. The model assumes option lists of the shape it allows. The indent option at position 0 is never read by the code, so it has no behaviour.
- `context.report(node, msg)` is modelled as the returned `Option<string>`. The node location it carries is not modelled.
- ESLint's traversal, which calls the visitor once per `TaggedTemplateExpression`, is not modelled.
- A `verify` that throws is not modelled: the exception on line 100 is not caught and would end the lint run. A result whose `message` is not a string is not modelled either: the `.split` on line 102 would throw.
- `cooked` can be `null` for a template with an invalid escape. The model treats it as a string.
- JavaScript strings are sequences of UTF-16 code units. The model uses Dafny `char` sequences, which index the same way for the characters the rule looks at (newline, space, tab).
