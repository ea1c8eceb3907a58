# Snapshot test runner of the nginx plugin for Prettier, in Dafny

The plugin's test runner (`test/index.ts`) walks the case directories under
`test/files`. Each case directory holds an `nginx.conf` input and an
`options.json` manifest. Every manifest record names an expected-output
fixture and a set of formatter options. For each record the runner:

1. formats the input with the nginx parser under those options;
2. drops the first carriage return from the fixture and from the output;
3. writes the output beside the fixture as `<fixture>.out`;
4. compares the two texts.

The comparison produces a failure alert:

- a length note when the lengths differ;
- a location message at the first position where the texts diverge, with its 1-based line and column;
- the current line prefix of each text, with the first space, tab and newline made visible.

Every non-empty alert is printed under a header naming the case and the fixture, and adds one to the exit code. A record without a filename, without options or with a missing fixture throws and aborts the run. So does a formatter that throws.

The model is in six modules:

- `Wrappers` (`wrappers.dfy`): `Option` and `Result`.
- `JsText` (`js_text.dfy`): the JavaScript string operation the runner uses: `replace` with a one-character pattern, which rewrites only the first occurrence. `IndexOf` specifies that first occurrence. The carriage-return strip and the whitespace rendering are built on `replace`.
- `Comparator` (`comparator.dfy`): the comparison loop as the method `CompareTexts`. It is proved equal to the function `FailAlert`, which is defined from the least diverging index and from recursive line accumulators. Lemmas connect those to closed forms.
- `ComparatorProperties` (`comparator_properties.dfy`): what the alert means. This covers the length note, identical texts, prefixes, at most one divergence, line and column by counting newlines, how the two prefixes relate, and worked examples.
- `Discovery` (`discovery.dfy`): the discovery loop as the method `DiscoverCases`. It is proved equal to the function `Discovered`, which is characterised by the stopping point and as a subsequence of the listing.
- `Runner` (`runner.dfy`): the pieces of one run:
  - record validation;
  - one record's run, including the `.out` write;
  - the functions `RunSpecs` and `RunSuite`, which give the reports and the aborting error of a case and of a whole run;
  - the class `TestRun`, which holds the exit code and the printed reports; its methods are proved against those functions.

Strings are sequences of Dafny `char`s, that is, of Unicode scalar values. On text within the Basic Multilingual Plane these are exactly the UTF-16 code units JavaScript indexes.

Two quirks of the code are worth stating:

- **Column.** When the scan meets a newline, it empties both line accumulators and then appends the newline itself. So the newline is column 1 of its line, and the first character after it is column 2. For expected `"a\nb\n"` against `"a\nc\n"` the report is line 2, column 2, with prefixes `"\nb"` and `"\nc"`; see `ComparatorProperties.SecondLineDivergence`.
- **Discovery.** A plain file in the listing is skipped. Only a directory lacking `nginx.conf` or `options.json` ends discovery; see `Discovery.PlainFileIsSkipped` and `Discovery.IncompleteDirectoryStops`.

## Model

| member | source | states |
|---|---|---|
| JsText.IndexOf | test/index.ts:87 | finds the first occurrence of a character: none exactly when the character is absent, otherwise an in-range position holding it with no occurrence before it |
| JsText.ReplaceFirst | test/index.ts:46-87 | defines `replace` with a one-character pattern: the first occurrence gives way to the replacement; the contract bounds the length, and the lemmas below characterise the result fully |
| JsText.ReplaceFirstLength | test/index.ts:46 | a string pattern that does not occur leaves the text unchanged; one that occurs trades one character for the replacement in the length |
| JsText.ReplaceFirstSplits | test/index.ts:46 | only the first occurrence is replaced: the text before it and everything after it are kept verbatim |
| JsText.ReplaceFirstCharAt | test/index.ts:87 | a one-character replacement changes exactly the position of the first occurrence, nothing else |
| JsText.IndexOfAfterReplace | test/index.ts:87 | replacing one character by another does not move the first occurrence of a third |
| JsText.ReplaceFirstMultiset | test/index.ts:46 | the multiset of characters loses one copy of the pattern and gains the replacement |
| JsText.StripCarriageReturn | test/index.ts:44-46 | the carriage-return strip shortens the text by one when it holds a carriage return and otherwise leaves it unchanged |
| JsText.StripRemovesOneCarriageReturn | test/index.ts:46 | exactly one carriage return goes (the multiset loses one) and no other character |
| JsText.SecondCarriageReturnSurvives | test/index.ts:52 | on Windows line endings only the first `\r` is removed: `"a\r\nb\r\n"` becomes `"a\nb\r\n"` |
| JsText.Render | test/index.ts:87 | rendering whitespace visible keeps the length of the line |
| JsText.RenderAt | test/index.ts:87 | position by position, rendering changes only the first space (to a middle dot), the first tab (to a two-em dash) and the first newline (to a return arrow) |
| JsText.RenderPlain | test/index.ts:87 | a line with no space, tab or newline is shown unchanged |
| JsText.RenderKeepsLaterSpaces | test/index.ts:87 | a second space stays a plain space: `"a b c"` renders with only the first space replaced |
| Comparator.FirstDivergence | test/index.ts:64-72 | the stopping index is inside the expected text and at most the result's length |
| Comparator.FirstDivergenceIsLeast | test/index.ts:64-91 | the scan stops at the least index where the result has run out or differs, and does not stop only when no such index exists |
| Comparator.NoDivergenceIffPrefix | test/index.ts:64-72 | the scan runs to the end exactly when the expected text is a prefix of the result |
| Comparator.LineNumber | test/index.ts:61-66 | the line counter starts at 1 and grows by at most one per character scanned |
| Comparator.LineNumberCountsNewlines | test/index.ts:61-66 | the line counter is one more than the newlines scanned so far |
| Comparator.ExpectedLine | test/index.ts:63-70 | the expected accumulator is non-empty and no longer than the scanned text once a character is scanned |
| Comparator.ResultLine | test/index.ts:62-71 | defines the `resultLine` accumulator: emptied on the expected text's newlines and fed with the result's character while the result lasts; it is never longer than the expected accumulator |
| Comparator.LineStart | test/index.ts:65-70 | the start of the current line lies inside the text scanned so far |
| Comparator.LineStartIsLastNewline | test/index.ts:65-70 | the current line starts at the last newline scanned, or at 0 when there is none |
| Comparator.LineStartStep | test/index.ts:65-70 | a scanned newline moves the line start to itself; any other character leaves it unchanged |
| Comparator.ExpectedLineIsSlice | test/index.ts:63-70 | the expected accumulator is the expected text from the current line start through the scan position |
| Comparator.ResultLineIsSlice | test/index.ts:62-71 | the result accumulator is the result text over the same positions, cut where the result ends |
| Comparator.DivergenceMessages | test/index.ts:73-90 | defines the three messages at a divergence: the location, then the rendered expected and result prefixes; the column equals the expected prefix's length, and each stated length is that of its rendered text |
| Comparator.FailAlert | test/index.ts:54-91 | defines the alert: the length note when the lengths differ, then the three messages at `FirstDivergence`; it has at most four messages, zero or three when the lengths agree and one or four when they differ |
| Comparator.FailAlertNone | test/index.ts:54-64 | a scan that never stops yields only the length note, if any |
| Comparator.FirstDivergenceAt | test/index.ts:72 | a stop at `i` with no stop before it is the first divergence |
| Comparator.FailAlertAt | test/index.ts:54-91 | the first divergence fixes the whole alert: length note, location, expected prefix, result prefix |
| Comparator.PushLinePrefixes | test/index.ts:78-90 | the two-element iteration pushes the rendered expected prefix and then the rendered result prefix, each with its length, onto the alert |
| Comparator.CompareTexts | test/index.ts:54-93 | the comparison loop builds exactly `FailAlert` of the two texts |
| ComparatorProperties.LengthNoteIffLengthsDiffer | test/index.ts:55-60 | a length note is present exactly when the lengths differ; it is then the first message and appears nowhere else |
| ComparatorProperties.NoMessagesIffIdentical | test/index.ts:54-72 | the alert is empty exactly when the two texts are identical |
| ComparatorProperties.ExpectedPrefixOfResult | test/index.ts:55-72 | when the expected text is a proper prefix of the result, the alert is only the length note |
| ComparatorProperties.ResultPrefixOfExpected | test/index.ts:64-77 | when the result is a proper prefix of the expected text, the divergence is at the result's length and the alert has four messages, the length note first |
| ComparatorProperties.AtMostOneDivergence | test/index.ts:72-91 | at most four messages; at most one location message, present exactly when the texts diverge and then third from last followed by the two prefixes; every rendered prefix has its stated length |
| ComparatorProperties.DivergenceLine | test/index.ts:61-76 | the location message gives the divergence index, and a line one more than the newlines up to and including that index; the next message renders the expected prefix |
| ComparatorProperties.DivergenceColumn | test/index.ts:63-76 | the column is `i + 1` without an earlier newline, otherwise `i - p + 1` for the last newline `p` at or before `i`, and the expected prefix is the text from `p` through `i` |
| ComparatorProperties.ExpectedLineFromLastNewline | test/index.ts:63-70 | the expected prefix is the text from the last newline so far, or from 0 when there is none |
| ComparatorProperties.ResultLineAgrees | test/index.ts:62-72 | the result prefix spans the same positions, cut where the result ends; it is never longer than the expected prefix, agrees with it before `i`, and differs at `i` when the result reaches `i`; it is the last message |
| ComparatorProperties.SharedPrefix | test/index.ts:64-72 | before the first divergence the two texts agree |
| ComparatorProperties.SecondLineDivergence | test/index.ts:61-90 | `"a\nb\n"` against `"a\nc\n"` reports index 2, line 2, column 2, with prefixes `"\nb"` and `"\nc"` shown with a return arrow |
| ComparatorProperties.RenderNewlineOnly | test/index.ts:87 | a newline followed by a plain character renders as a return arrow and that character |
| ComparatorProperties.TruncatedResultStops | test/index.ts:72 | `"abc"` against `"ab"` stops where the result runs out |
| ComparatorProperties.TruncatedResultLines | test/index.ts:61-71 | at that stop the line is 1 and the prefixes are `"abc"` and `"ab"` |
| ComparatorProperties.TruncatedResult | test/index.ts:54-90 | the whole alert for `"abc"` against `"ab"`: length note, location at index 2 line 1 column 3, and both prefixes |
| Discovery.Discovered | test/index.ts:16-23 | every discovered case is a directory holding both artifacts, and there are no more cases than entries |
| Discovery.DiscoverCases | test/index.ts:14-23 | the discovery loop collects exactly `Discovered` of the listing |
| Discovery.StopIndex | test/index.ts:18-20 | the stopping point is the first entry that is a directory lacking an artifact, or the end of the listing |
| Discovery.DiscoveredIsDirectoriesBeforeStop | test/index.ts:16-23 | discovery yields the directories before the stopping point, in order |
| Discovery.DiscoveredIsSubsequence | test/index.ts:16-23 | the cases are an order-preserving subsequence of the listing |
| Discovery.DiscoveredBeforeStop | test/index.ts:19-20 | every case comes from before the stopping point |
| Discovery.NothingAfterStop | test/index.ts:19-20 | with distinct names, no entry at or after the stopping point is discovered, even a complete directory |
| Discovery.PlainFileIsSkipped | test/index.ts:18 | a plain file between two complete directories is skipped and discovery goes on |
| Discovery.IncompleteDirectoryStops | test/index.ts:19-20 | an incomplete directory ends discovery: a complete directory after it is not discovered |
| Runner.MergeOptions | test/index.ts:48-51 | merging gives every key of either object, with the record's options winning over the base configuration |
| Runner.MergedOptionsSelectParser | test/index.ts:48-51 | every run selects a parser, the nginx one unless the record overrides it |
| Runner.Validate | test/index.ts:33-43 | a falsy filename fails first, then falsy options, then a missing fixture; a record passing all three is accepted with its filename and options |
| Runner.RunOne | test/index.ts:33-53 | defines one record's run: a validation error is that record's error; otherwise the formatter's error, or the alert of the stripped texts with `<fixture>.out` added to the directory and no other file name added |
| Runner.RunOneFailsIffTextsDiffer | test/index.ts:44-53 | a run that completes writes the stripped output to `<fixture>.out`, and its alert is empty exactly when the stripped fixture and the stripped output are identical |
| Runner.ReportOf | test/index.ts:94-99 | defines the report one run adds: none for an empty alert, otherwise one report made of the header naming the case and fixture followed by the whole alert |
| Runner.RunSpecs | test/index.ts:33-104 | defines a case: its records run in order until the first error; at most one report per record, and no file of the case directory is lost |
| Runner.RunSpecsStep | test/index.ts:33 | one more record, after records that all completed, adds that record's error or its report |
| Runner.RunSpecsAbortIsFinal | test/index.ts:35-43 | once a record has thrown, the later records change nothing |
| Runner.AbortKeepsEarlierReports | test/index.ts:33-103 | a record that throws aborts the case with its error, and the records before it keep their reports |
| Runner.ReportsAreHeaded | test/index.ts:94-99 | a case yields at most one report per record; each report opens with the header naming its case, and has between one and four messages after it |
| Runner.RunSuite | test/index.ts:25-105 | defines a whole run: the cases run in order until the first one that aborts; an aborting error is the error of one of the cases |
| Runner.RunSuiteStep | test/index.ts:25 | one more case, after cases that all completed, adds that case's reports and error |
| Runner.RunSuiteAbortIsFinal | test/index.ts:25 | once a case has aborted, the later cases change nothing |
| Runner.TestRun.constructor | test/index.ts:11 | the run starts with exit code 0 and no reports |
| Runner.TestRun.Report | test/index.ts:94-103 | a non-empty alert gets its header at index 0, is printed, and adds exactly one to the exit code; an empty one changes nothing |
| Runner.TestRun.RunRecord | test/index.ts:33-103 | one record either throws the error `RunOne` gives, with nothing printed, or returns the directory after the `.out` write and prints that record's report |
| Runner.TestRun.RunCase | test/index.ts:26-104 | the records of a case are run in order; the printed reports, the error and the exit-code increase are those of `RunSpecs` |
| Runner.TestRun.RunCases | test/index.ts:25-105 | the cases are run in order; the printed reports, the error and the exit-code increase are those of `RunSuite` |
| Runner.TestRun.RunAll | test/index.ts:14-107 | discovery then every case: the exit code grows by the number of reports, one per failing record; the outcome is the aborting error or the final exit code |

## Left out

- File-system calls are modelled on values. The listing is a sequence of entries, each a name, a directory flag and a map from file names to contents. `existsSync` is membership in that map, `readFileSync` a lookup, and `writeFileSync` of the `.out` artifact an update of the case's map. Read errors other than a missing file are not modelled, and neither are write errors of the `.out` artifact.
- `path.join` is not modelled: a fixture is looked up by its filename as given, with no path normalisation or escaping of the case directory. The header uses the entry's name, standing for `path.basename` of the case directory.
- `JSON.parse` of the manifest is a function parameter from the manifest text to records. Malformed JSON, and fields holding non-string values, are not modelled. Falsy fields are `None`, or the empty string for a filename.
- The Prettier `format` call is a function parameter returning the output or an error message. Its asynchrony (`await`) is not modelled: the run is sequential.
- Option values are kept only as opaque values, as far as the merge needs them.
- Messages are a datatype (`LengthMismatch`, `Divergence`, `LinePrefix`, `Header`), not the rendered strings. The `join("\n\t")` and `console.error` output are represented by the sequence of reports `TestRun.reports`.
- `process.exit` is represented by `RunAll` returning the final exit code. The process's exit-status truncation is not modelled.
- Thrown exceptions become a `RunError` value that ends the run. Their message texts are not modelled.
- Characters outside the Basic Multilingual Plane are one `char` here but two UTF-16 code units in JavaScript. For text holding such characters, the lengths in the length note and the line prefixes, and the divergence index and column, differ from the runner's by one per such character.
