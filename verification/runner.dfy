/**
 * The run over the discovered cases (test/index.ts:25-107): every manifest
 * record of a case is validated, its fixture and the formatter's output are
 * compared, the output is written beside the fixture, and each failing run
 * adds one report and one to the exit code. A validation or formatter error
 * aborts the whole run.
 */
module Runner {
  import opened Wrappers
  import opened JsText
  import opened Comparator
  import opened Discovery
  import ComparatorProperties

  /** A formatter option value, as far as the runner passes it along. */
  datatype OptionValue = Text(text: string) | TextList(items: seq<string>) | Other(json: string)

  type Options = map<string, OptionValue>

  /** The formatter: an external library that produces text or throws. */
  type Formatter = (string, Options) -> Result<string, string>

  /** The fixed base configuration: the nginx parser and the built plugin (test/index.ts:6-9). */
  const BaseConfig: Options := map["parser" := Text("nginx"), "plugins" := TextList(["./dist"])]

  /** The object spread `{ ...base, ...overrides }`: every key of either, the overrides winning. */
  function MergeOptions(base: Options, overrides: Options): (merged: Options)
    ensures merged.Keys == base.Keys + overrides.Keys
    ensures forall key :: key in overrides ==> merged[key] == overrides[key]
    ensures forall key :: key in base && key !in overrides ==> merged[key] == base[key]
  {
    base + overrides
  }

  /** Every run selects a parser: the nginx one unless the record overrides it. */
  lemma MergedOptionsSelectParser(overrides: Options)
    ensures "parser" in MergeOptions(BaseConfig, overrides)
    ensures "parser" !in overrides ==> MergeOptions(BaseConfig, overrides)["parser"] == Text("nginx")
  {
  }

  /**
   * One record of the parsed manifest. `None` stands for a field that is absent
   * or holds a falsy JSON value; a present filename may still be the empty
   * string, which is falsy too.
   */
  datatype ManifestEntry = ManifestEntry(filename: Option<string>, options: Option<Options>)

  /** JavaScript truthiness of the `filename` field. */
  predicate Truthy(filename: Option<string>)
  {
    filename.Some? && filename.value != ""
  }

  /** The exceptions that abort the run. */
  datatype RunError =
    | MissingFilename
    | MissingOptions
    | MissingFixture(filename: string)
    | FormatterFailed(filename: string, reason: string)

  /** A record that passed validation. */
  datatype RunSpec = RunSpec(filename: string, options: Options)

  /**
   * The three checks of test/index.ts:34-43, in their order: a falsy filename,
   * then falsy options, then a fixture that does not exist in the case
   * directory. The first that fails decides the error.
   */
  function Validate(entry: ManifestEntry, files: map<string, string>): (r: Result<RunSpec, RunError>)
    ensures r == Err(MissingFilename) <==> !Truthy(entry.filename)
    ensures r == Err(MissingOptions) <==> Truthy(entry.filename) && entry.options.None?
    ensures (r.Err? && r.error.MissingFixture?) <==>
            Truthy(entry.filename) && entry.options.Some? && entry.filename.value !in files
    ensures r.Ok? <==> Truthy(entry.filename) && entry.options.Some? && entry.filename.value in files
    ensures r.Ok? ==> r.value == RunSpec(entry.filename.value, entry.options.value)
    ensures !r.Err? || !r.error.FormatterFailed?
  {
    if !Truthy(entry.filename) then Err(MissingFilename)
    else if entry.options.None? then Err(MissingOptions)
    else if entry.filename.value !in files then Err(MissingFixture(entry.filename.value))
    else Ok(RunSpec(entry.filename.value, entry.options.value))
  }

  /** The name of the artifact a run writes its output to. */
  function OutputFile(filename: string): string
  {
    filename + ".out"
  }

  /** What one validated run leaves behind: the directory after the `.out` write, and its messages. */
  datatype RunResult = RunResult(files: map<string, string>, failAlert: seq<Message>)

  /**
   * One record of a case: validate, read the fixture, format the input under
   * the merged options, drop one carriage return from both texts, write the
   * output beside the fixture and compare.
   */
  function RunOne(input: string, files: map<string, string>, entry: ManifestEntry, format: Formatter)
    : (r: Result<RunResult, RunError>)
    ensures Validate(entry, files).Err? ==> r == Err(Validate(entry, files).error)
    ensures r.Ok? ==> Validate(entry, files).Ok? && OutputFile(entry.filename.value) in r.value.files
    ensures r.Ok? ==> r.value.files.Keys == files.Keys + {OutputFile(entry.filename.value)}
    ensures r.Err? && Validate(entry, files).Ok? ==> r.error.FormatterFailed?
  {
    match Validate(entry, files)
    case Err(e) => Err(e)
    case Ok(spec) =>
      var expected := StripCarriageReturn(files[spec.filename]);
      match format(input, MergeOptions(BaseConfig, spec.options))
      case Err(reason) => Err(FormatterFailed(spec.filename, reason))
      case Ok(formatted) =>
        var result := StripCarriageReturn(formatted);
        Ok(RunResult(files[OutputFile(spec.filename) := result], FailAlert(expected, result)))
  }

  /** A run is reported exactly when its texts differ once each has lost its first carriage return. */
  lemma RunOneFailsIffTextsDiffer(input: string, files: map<string, string>, entry: ManifestEntry, format: Formatter)
    requires RunOne(input, files, entry, format).Ok?
    ensures var filename := entry.filename.value;
      && filename in files
      && format(input, MergeOptions(BaseConfig, entry.options.value)).Ok?
      && var expected := StripCarriageReturn(files[filename]);
         var result := StripCarriageReturn(format(input, MergeOptions(BaseConfig, entry.options.value)).value);
         && RunOne(input, files, entry, format).value.files == files[OutputFile(filename) := result]
         && (RunOne(input, files, entry, format).value.failAlert == [] <==> expected == result)
  {
    var filename := entry.filename.value;
    var expected := StripCarriageReturn(files[filename]);
    var result := StripCarriageReturn(format(input, MergeOptions(BaseConfig, entry.options.value)).value);
    ComparatorProperties.NoMessagesIffIdentical(expected, result);
  }

  /** The report a run adds: none when it passed, else its header and its messages. */
  function ReportOf(caseName: string, filename: string, failAlert: seq<Message>): (reports: seq<seq<Message>>)
    ensures |reports| <= 1
    ensures reports == [] <==> failAlert == []
    ensures reports != [] ==>
      |reports[0]| == |failAlert| + 1 && reports[0][0] == Header(caseName, filename) && reports[0][1..] == failAlert
  {
    if failAlert == [] then [] else [[Header(caseName, filename)] + failAlert]
  }

  /** The reports, the aborting error if any, and the directory state after some records of one case. */
  datatype CaseOutcome = CaseOutcome(reports: seq<seq<Message>>, error: Option<RunError>, files: map<string, string>)

  /** The records of one case, run in order until the first error. */
  function RunSpecs(caseName: string, input: string, files: map<string, string>,
                    manifest: seq<ManifestEntry>, format: Formatter): (o: CaseOutcome)
    ensures |o.reports| <= |manifest|
    ensures files.Keys <= o.files.Keys
  {
    if manifest == [] then CaseOutcome([], None, files)
    else
      var before := RunSpecs(caseName, input, files, manifest[..|manifest| - 1], format);
      var entry := manifest[|manifest| - 1];
      if before.error.Some? then before
      else
        match RunOne(input, before.files, entry, format)
        case Err(e) => CaseOutcome(before.reports, Some(e), before.files)
        case Ok(run) =>
          CaseOutcome(before.reports + ReportOf(caseName, entry.filename.value, run.failAlert), None, run.files)
  }

  /** One more record, when none before it has thrown. */
  lemma RunSpecsStep(caseName: string, input: string, files: map<string, string>,
                     manifest: seq<ManifestEntry>, k: nat, format: Formatter)
    requires k < |manifest|
    requires RunSpecs(caseName, input, files, manifest[..k], format).error.None?
    ensures var before := RunSpecs(caseName, input, files, manifest[..k], format);
      RunSpecs(caseName, input, files, manifest[..k + 1], format) ==
        match RunOne(input, before.files, manifest[k], format)
        case Err(e) => CaseOutcome(before.reports, Some(e), before.files)
        case Ok(run) =>
          CaseOutcome(before.reports + ReportOf(caseName, manifest[k].filename.value, run.failAlert), None, run.files)
  {
    assert manifest[..k + 1][..k] == manifest[..k];
  }

  /** Once a record has thrown, the later records change nothing. */
  lemma {:induction false} RunSpecsAbortIsFinal(caseName: string, input: string, files: map<string, string>,
                                                manifest: seq<ManifestEntry>, n: nat, format: Formatter)
    requires n <= |manifest|
    requires RunSpecs(caseName, input, files, manifest[..n], format).error.Some?
    ensures RunSpecs(caseName, input, files, manifest, format) == RunSpecs(caseName, input, files, manifest[..n], format)
  {
    if n < |manifest| {
      var shorter := manifest[..|manifest| - 1];
      assert shorter[..n] == manifest[..n];
      RunSpecsAbortIsFinal(caseName, input, files, shorter, n, format);
    } else {
      assert manifest[..n] == manifest;
    }
  }

  /**
   * A record that fails validation or formatting aborts the case with that
   * error, and the records before it have already been compared and reported.
   */
  lemma AbortKeepsEarlierReports(caseName: string, input: string, files: map<string, string>,
                                 manifest: seq<ManifestEntry>, k: nat, format: Formatter)
    requires k < |manifest|
    requires RunSpecs(caseName, input, files, manifest[..k], format).error.None?
    requires RunOne(input, RunSpecs(caseName, input, files, manifest[..k], format).files, manifest[k], format).Err?
    ensures var before := RunSpecs(caseName, input, files, manifest[..k], format);
      RunSpecs(caseName, input, files, manifest, format) ==
        CaseOutcome(before.reports,
                    Some(RunOne(input, before.files, manifest[k], format).error),
                    before.files)
  {
    assert manifest[..k + 1][..k] == manifest[..k];
    RunSpecsAbortIsFinal(caseName, input, files, manifest, k + 1, format);
  }

  /** Every report opens with the header naming its case, and holds at least one message after it. */
  lemma {:induction false} ReportsAreHeaded(caseName: string, input: string, files: map<string, string>,
                                           manifest: seq<ManifestEntry>, format: Formatter)
    ensures var o := RunSpecs(caseName, input, files, manifest, format);
      |o.reports| <= |manifest| &&
      forall k :: 0 <= k < |o.reports| ==>
        2 <= |o.reports[k]| <= 5 && o.reports[k][0].Header? && o.reports[k][0].caseName == caseName
  {
    if manifest != [] {
      var shorter := manifest[..|manifest| - 1];
      ReportsAreHeaded(caseName, input, files, shorter, format);
      var before := RunSpecs(caseName, input, files, shorter, format);
      if before.error.None? {
        match RunOne(input, before.files, manifest[|manifest| - 1], format)
        case Err(_) =>
        case Ok(run) =>
          ComparatorProperties.AtMostOneDivergence(
            StripCarriageReturn(before.files[manifest[|manifest| - 1].filename.value]),
            StripCarriageReturn(format(input, MergeOptions(BaseConfig, manifest[|manifest| - 1].options.value)).value));
      }
    }
  }

  /** The reports and the aborting error of a whole run over the discovered cases. */
  datatype SuiteOutcome = SuiteOutcome(reports: seq<seq<Message>>, error: Option<RunError>)

  /** The case of one discovered directory. */
  function CaseOutcomeOf(entry: Entry, parse: string -> seq<ManifestEntry>, format: Formatter): CaseOutcome
    requires HasArtifacts(entry)
  {
    RunSpecs(entry.name, entry.files[InputFile], entry.files, parse(entry.files[ManifestFile]), format)
  }

  /** The cases in order, until the first one that aborts. */
  function RunSuite(cases: seq<Entry>, parse: string -> seq<ManifestEntry>, format: Formatter): (s: SuiteOutcome)
    requires forall k :: 0 <= k < |cases| ==> HasArtifacts(cases[k])
    ensures s.error.Some? ==> exists k :: 0 <= k < |cases| && CaseOutcomeOf(cases[k], parse, format).error == s.error
  {
    if cases == [] then SuiteOutcome([], None)
    else
      var before := RunSuite(cases[..|cases| - 1], parse, format);
      if before.error.Some? then before
      else
        var c := CaseOutcomeOf(cases[|cases| - 1], parse, format);
        SuiteOutcome(before.reports + c.reports, c.error)
  }

  /** One more case, when none before it has aborted. */
  lemma RunSuiteStep(cases: seq<Entry>, d: nat, parse: string -> seq<ManifestEntry>, format: Formatter)
    requires forall k :: 0 <= k < |cases| ==> HasArtifacts(cases[k])
    requires d < |cases|
    requires RunSuite(cases[..d], parse, format).error.None?
    ensures RunSuite(cases[..d + 1], parse, format) ==
      SuiteOutcome(RunSuite(cases[..d], parse, format).reports + CaseOutcomeOf(cases[d], parse, format).reports,
                   CaseOutcomeOf(cases[d], parse, format).error)
  {
    assert cases[..d + 1][..d] == cases[..d];
  }

  /** Once a case has aborted, the later cases change nothing. */
  lemma {:induction false} RunSuiteAbortIsFinal(cases: seq<Entry>, n: nat, parse: string -> seq<ManifestEntry>,
                                                format: Formatter)
    requires forall k :: 0 <= k < |cases| ==> HasArtifacts(cases[k])
    requires n <= |cases|
    requires RunSuite(cases[..n], parse, format).error.Some?
    ensures RunSuite(cases, parse, format) == RunSuite(cases[..n], parse, format)
  {
    if n < |cases| {
      var shorter := cases[..|cases| - 1];
      assert shorter[..n] == cases[..n];
      RunSuiteAbortIsFinal(shorter, n, parse, format);
    } else {
      assert cases[..n] == cases;
    }
  }

  /**
   * Appending in two steps is appending the two parts at once. This only helps
   * the verifier with the report invariants of `TestRun.RunCase` and
   * `TestRun.RunCases`.
   */
  lemma ConcatAssociates<T>(a: seq<T>, b: seq<T>, c: seq<T>)
    ensures a + b + c == a + (b + c)
  {
  }

  /**
   * The state the runner keeps while it goes: the exit code and the failure
   * blocks written to the error stream, one per failing run.
   */
  class TestRun {
    var exitCode: nat
    var reports: seq<seq<Message>>

    /** The exit code counts the reports, and every report opens with its header. */
    ghost predicate Valid()
      reads this
    {
      exitCode == |reports| &&
      forall k :: 0 <= k < |reports| ==> |reports[k]| >= 2 && reports[k][0].Header?
    }

    constructor ()
      ensures Valid() && exitCode == 0 && reports == []
    {
      exitCode := 0;
      reports := [];
    }

    /** test/index.ts:94-103: a non-empty alert gets its header at index 0 and counts once. */
    method Report(caseName: string, filename: string, failAlert: seq<Message>)
      requires Valid()
      modifies this
      ensures Valid()
      ensures reports == old(reports) + ReportOf(caseName, filename, failAlert)
      ensures exitCode == old(exitCode) + if failAlert == [] then 0 else 1
    {
      if |failAlert| > 0 {
        var alert := [Header(caseName, filename)] + failAlert;
        reports := reports + [alert];
        exitCode := exitCode + 1;
      }
    }

    /**
     * One record of a case (test/index.ts:33-103): the checks, the read of the
     * fixture, the formatter, the `.out` write, the comparison and the report.
     */
    method RunRecord(caseName: string, input: string, files: map<string, string>,
                     option: ManifestEntry, format: Formatter)
      returns (written: map<string, string>, error: Option<RunError>)
      requires Valid()
      modifies this
      ensures Valid()
      ensures match RunOne(input, files, option, format)
        case Err(e) => error == Some(e) && reports == old(reports)
        case Ok(run) =>
          && error.None? && written == run.files
          && reports == old(reports) + ReportOf(caseName, option.filename.value, run.failAlert)
    {
      written := files;
      if !Truthy(option.filename) {
        return written, Some(MissingFilename);
      }
      if option.options.None? {
        return written, Some(MissingOptions);
      }
      var filename := option.filename.value;
      if filename !in files {
        return written, Some(MissingFixture(filename));
      }
      var expectedResult := StripCarriageReturn(files[filename]);
      var formatted := format(input, MergeOptions(BaseConfig, option.options.value));
      if formatted.Err? {
        return written, Some(FormatterFailed(filename, formatted.error));
      }
      var result := StripCarriageReturn(formatted.value);
      written := files[OutputFile(filename) := result];
      var failAlert := CompareTexts(expectedResult, result);
      Report(caseName, filename, failAlert);
      error := None;
    }

    /** The loop over the records of one case (test/index.ts:26-104). */
    method RunCase(entry: Entry, parse: string -> seq<ManifestEntry>, format: Formatter)
      returns (error: Option<RunError>)
      requires Valid() && HasArtifacts(entry)
      modifies this
      ensures Valid()
      ensures var o := CaseOutcomeOf(entry, parse, format);
        reports == old(reports) + o.reports && error == o.error && exitCode == old(exitCode) + |o.reports|
    {
      var input := entry.files[InputFile];
      var options := parse(entry.files[ManifestFile]);
      var files := entry.files;
      for k := 0 to |options|
        invariant Valid()
        invariant var o := RunSpecs(entry.name, input, entry.files, options[..k], format);
          o.error.None? && o.files == files && reports == old(reports) + o.reports
      {
        RunSpecsStep(entry.name, input, entry.files, options, k, format);
        ghost var earlier := reports;
        files, error := RunRecord(entry.name, input, files, options[k], format);
        if error.Some? {
          RunSpecsAbortIsFinal(entry.name, input, entry.files, options, k + 1, format);
          assert options[..|options|] == options;
          return;
        }
        ConcatAssociates(old(reports), RunSpecs(entry.name, input, entry.files, options[..k], format).reports,
                         reports[|earlier|..]);
      }
      assert options[..|options|] == options;
      error := None;
    }

    /** The loop over the discovered cases (test/index.ts:25-105), ending at the first error. */
    method RunCases(cases: seq<Entry>, parse: string -> seq<ManifestEntry>, format: Formatter)
      returns (error: Option<RunError>)
      requires Valid()
      requires forall k :: 0 <= k < |cases| ==> HasArtifacts(cases[k])
      modifies this
      ensures Valid()
      ensures var s := RunSuite(cases, parse, format);
        reports == old(reports) + s.reports && error == s.error && exitCode == old(exitCode) + |s.reports|
    {
      for d := 0 to |cases|
        invariant Valid()
        invariant var s := RunSuite(cases[..d], parse, format);
          s.error.None? && reports == old(reports) + s.reports
      {
        RunSuiteStep(cases, d, parse, format);
        ghost var earlier, added := RunSuite(cases[..d], parse, format).reports, CaseOutcomeOf(cases[d], parse, format).reports;
        error := RunCase(cases[d], parse, format);
        ConcatAssociates(old(reports), earlier, added);
        if error.Some? {
          RunSuiteAbortIsFinal(cases, d + 1, parse, format);
          return;
        }
      }
      assert cases[..|cases|] == cases;
      error := None;
    }

    /**
     * The whole run: discovery, then every case in order; an error aborts it,
     * otherwise the run ends with the exit code (test/index.ts:107).
     */
    method RunAll(listing: seq<Entry>, parse: string -> seq<ManifestEntry>, format: Formatter)
      returns (outcome: Result<nat, RunError>)
      requires Valid()
      modifies this
      ensures Valid()
      ensures var s := RunSuite(Discovered(listing), parse, format);
        && reports == old(reports) + s.reports
        && exitCode == old(exitCode) + |s.reports|
        && outcome == if s.error.Some? then Err(s.error.value) else Ok(exitCode)
    {
      var testDirectories := DiscoverCases(listing);
      var error := RunCases(testDirectories, parse, format);
      if error.Some? {
        return Err(error.value);
      }
      return Ok(exitCode);
    }
  }
}
