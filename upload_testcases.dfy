/**
 * The `upload testcases` command: what uploading one test-case file does, as
 * the outcome and the ordered API calls it makes, the loop over the files, and
 * the choice of the closing summary line. Each response the API gives is an
 * input: the file's `TestcaseWorld`.
 */
module UploadTestcases {
  import opened Wrappers
  import opened GoStrings
  import opened UploadTypes
  import opened UploadParser
  import opened RemoteTypes
  import opened UploadLoop

  /**
   * What the outside world answers while one test-case file is uploaded: the
   * CSV reader's records (or the open/read error, already worded), the
   * responses of GetFrameTestCases, UpdateFrameTestcase, GetFrame and
   * InsertFrameTestcase (an update or insert is known only by its error).
   */
  datatype TestcaseWorld = TestcaseWorld(
    csv: Result<seq<seq<string>>>,
    existing: Result<seq<FrameTestCase>>,
    updateError: Option<string>,
    frame: Result<Frame>,
    insertError: Option<string>)

  /** ParseTestcasesCSV on the file's records. */
  function TestcasesOfFile(csv: Result<seq<seq<string>>>, filePath: string): Result<TestCaseContent> {
    match csv
    case Err(e) => Err(e)
    case Ok(records) =>
      if |records| < 2 then Err(NoDataRows)
      else
        match ParseFilePath(filePath)
        case Err(e) => Err(e)
        case Ok(parsed) => Ok(TestCaseContent(parsed.frameName, TestcaseRows(records[1..], ColumnIndex(records[0]))))
  }

  /** Every data row is a test case, so a parsed file never holds none. */
  lemma ParsedFileIsNeverEmpty(csv: Result<seq<seq<string>>>, filePath: string)
    requires TestcasesOfFile(csv, filePath).Ok?
    ensures |TestcasesOfFile(csv, filePath).value.testCases| == |csv.value| - 1 > 0
    ensures TestcasesOfFile(csv, filePath).value.screenName == ParseFilePath(filePath).value.frameName
  {
  }

  function Outcome(filePath: string, status: string, err: Option<string>, message: string,
                   calls: seq<RemoteCall>): FileOutcome {
    FileOutcome(UploadResult(filePath, Base(filePath), status, err, message), calls)
  }

  function UploadedMessage(content: TestCaseContent): string {
    "Uploaded " + IntToString(|content.testCases|) + " test cases"
  }

  /** The test cases already stored for the frame; a failed lookup counts as none. */
  function ExistingOf(w: TestcaseWorld): seq<FrameTestCase> {
    if w.existing.Ok? then w.existing.value else []
  }

  /** The insert path: look the frame up for its internal ID, then insert. */
  function InsertTestcases(filePath: string, parsed: ParsedFilePath, content: TestCaseContent,
                           w: TestcaseWorld): FileOutcome {
    var lookup := GetFrame(parsed.fileKey, parsed.frameId);
    match w.frame
    case Err(e) => Outcome(filePath, Failed, Some(e), "Frame not found: " + e, [lookup])
    case Ok(frame) =>
      var insert := InsertFrameTestcase(frame.id, content);
      match w.insertError
      case Some(e) => Outcome(filePath, Failed, Some(e), "Failed to insert test case: " + e, [lookup, insert])
      case None => Outcome(filePath, Success, None, UploadedMessage(content), [lookup, insert])
  }

  /** From the lookup of stored test cases on: update the first one, or insert when there is none. */
  function SaveTestcases(filePath: string, parsed: ParsedFilePath, content: TestCaseContent,
                         w: TestcaseWorld): FileOutcome {
    var lookup := GetFrameTestCases(parsed.fileKey, parsed.frameId);
    var existing := ExistingOf(w);
    if |existing| > 0 then
      var update := UpdateFrameTestcase(existing[0].id, content);
      match w.updateError
      case Some(e) => Outcome(filePath, Failed, Some(e), "Failed to update test case: " + e, [lookup, update])
      case None => Outcome(filePath, Success, None, UploadedMessage(content), [lookup, update])
    else
      var rest := InsertTestcases(filePath, parsed, content, w);
      FileOutcome(rest.result, [lookup] + rest.calls)
  }

  /** From the CSV parse on, once the path is known to match. */
  function UploadTestcaseRecords(filePath: string, parsed: ParsedFilePath, w: TestcaseWorld): FileOutcome {
    match TestcasesOfFile(w.csv, filePath)
    case Err(e) => Outcome(filePath, Failed, Some(e), "Failed to parse CSV: " + e, [])
    case Ok(content) =>
      if |content.testCases| == 0 then Outcome(filePath, Skipped, None, "CSV file contains no test cases", [])
      else SaveTestcases(filePath, parsed, content, w)
  }

  /** What uploading one test-case file produces. */
  function TestcaseFileUpload(filePath: string, w: TestcaseWorld): FileOutcome {
    match ParseFilePath(filePath)
    case Err(e) => Outcome(filePath, Skipped, Some(e), "Invalid file path format", [])
    case Ok(parsed) => UploadTestcaseRecords(filePath, parsed, w)
  }

  /** uploadSingleTestcaseFile: the steps in order, each remote response taken from `w`. */
  method UploadSingleTestcaseFile(filePath: string, w: TestcaseWorld) returns (o: FileOutcome)
    ensures o == TestcaseFileUpload(filePath, w)
  {
    var parsedPath := ParseFilePath(filePath);
    if parsedPath.Err? {
      return FileOutcome(UploadResult(filePath, Base(filePath), Skipped, Some(parsedPath.error), "Invalid file path format"), []);
    }
    o := UploadTestcaseFileRecords(filePath, parsedPath.value, w);
  }

  /** The part of uploadSingleTestcaseFile after the path check. */
  method UploadTestcaseFileRecords(filePath: string, parsed: ParsedFilePath, w: TestcaseWorld)
    returns (o: FileOutcome)
    ensures o == UploadTestcaseRecords(filePath, parsed, w)
  {
    var fileName := Base(filePath);
    var contentResult := ReadTestcases(w.csv, filePath);
    if contentResult.Err? {
      var e := contentResult.error;
      return FileOutcome(UploadResult(filePath, fileName, Failed, Some(e), "Failed to parse CSV: " + e), []);
    }
    var content := contentResult.value;
    if |content.testCases| == 0 {
      return FileOutcome(UploadResult(filePath, fileName, Skipped, None, "CSV file contains no test cases"), []);
    }
    o := SaveTestcaseContent(filePath, parsed, content, w);
  }

  /** Reading the file: the reader's error, or ParseTestcasesCSV on its records. */
  method ReadTestcases(csv: Result<seq<seq<string>>>, filePath: string) returns (r: Result<TestCaseContent>)
    ensures r == TestcasesOfFile(csv, filePath)
  {
    if csv.Err? {
      return Err(csv.error);
    }
    r := ParseTestcasesCSV(csv.value, filePath);
  }

  /** The part of uploadSingleTestcaseFile from the lookup of stored test cases on. */
  method SaveTestcaseContent(filePath: string, parsed: ParsedFilePath, content: TestCaseContent, w: TestcaseWorld)
    returns (o: FileOutcome)
    ensures o == SaveTestcases(filePath, parsed, content, w)
  {
    var fileName := Base(filePath);
    var calls := [GetFrameTestCases(parsed.fileKey, parsed.frameId)];
    var existingTestCases: seq<FrameTestCase> := [];
    if w.existing.Ok? {
      existingTestCases := w.existing.value;
    }
    if |existingTestCases| > 0 {
      calls := calls + [UpdateFrameTestcase(existingTestCases[0].id, content)];
      if w.updateError.Some? {
        var e := w.updateError.value;
        return FileOutcome(UploadResult(filePath, fileName, Failed, Some(e), "Failed to update test case: " + e), calls);
      }
    } else {
      calls := calls + [GetFrame(parsed.fileKey, parsed.frameId)];
      if w.frame.Err? {
        var e := w.frame.error;
        return FileOutcome(UploadResult(filePath, fileName, Failed, Some(e), "Frame not found: " + e), calls);
      }
      calls := calls + [InsertFrameTestcase(w.frame.value.id, content)];
      if w.insertError.Some? {
        var e := w.insertError.value;
        return FileOutcome(UploadResult(filePath, fileName, Failed, Some(e), "Failed to insert test case: " + e), calls);
      }
    }
    o := FileOutcome(UploadResult(filePath, fileName, Success, None,
                                  "Uploaded " + IntToString(|content.testCases|) + " test cases"), calls);
  }

  // ------------------------------------------------------------ properties of one test-case file's upload

  /** The file gets past the path and CSV checks. */
  predicate ReachesLookup(filePath: string, w: TestcaseWorld) {
    ParseFilePath(filePath).Ok? && TestcasesOfFile(w.csv, filePath).Ok?
  }

  /** No API call is made for a file that fails the path or CSV checks; a bad path is skipped, a bad CSV fails. */
  lemma NoCallsBeforeTheLookup(filePath: string, w: TestcaseWorld)
    ensures var o := TestcaseFileUpload(filePath, w);
            && (o.calls == [] <==> !ReachesLookup(filePath, w))
            && (ParseFilePath(filePath).Err? ==> o.result.status == Skipped && o.result.message == "Invalid file path format")
            && (ParseFilePath(filePath).Ok? && TestcasesOfFile(w.csv, filePath).Err? ==> o.result.status == Failed)
  {
    if ReachesLookup(filePath, w) {
      ParsedFileIsNeverEmpty(w.csv, filePath);
    }
  }

  /** The save step names the file, never skips it, and treats a failed lookup as finding nothing. */
  lemma SaveFacts(filePath: string, parsed: ParsedFilePath, content: TestCaseContent, w: TestcaseWorld, e: string)
    ensures var r := SaveTestcases(filePath, parsed, content, w).result;
            r.filePath == filePath && r.fileName == Base(filePath) && r.status != Skipped
    ensures SaveTestcases(filePath, parsed, content, w.(existing := Err(e)))
         == SaveTestcases(filePath, parsed, content, w.(existing := Ok([])))
  {
  }

  lemma RecordsFacts(filePath: string, parsed: ParsedFilePath, w: TestcaseWorld, e: string)
    ensures var r := UploadTestcaseRecords(filePath, parsed, w).result;
            r.filePath == filePath && r.fileName == Base(filePath) && r.status != Skipped
    ensures UploadTestcaseRecords(filePath, parsed, w.(existing := Err(e)))
         == UploadTestcaseRecords(filePath, parsed, w.(existing := Ok([])))
  {
    if TestcasesOfFile(w.csv, filePath).Ok? {
      ParsedFileIsNeverEmpty(w.csv, filePath);
      SaveFacts(filePath, parsed, TestcasesOfFile(w.csv, filePath).value, w, e);
    }
  }

  /**
   * A file is skipped only for its path: the "no test cases" outcome is never
   * reached, since a parsed file holds a test case per data row.
   */
  lemma SkippedOnlyForThePath(filePath: string, w: TestcaseWorld)
    ensures TestcaseFileUpload(filePath, w).result.status == Skipped <==> ParseFilePath(filePath).Err?
  {
    if ParseFilePath(filePath).Ok? {
      RecordsFacts(filePath, ParseFilePath(filePath).value, w, "");
    }
  }

  /** With stored test cases, only the first is updated: no frame lookup and no insert. */
  lemma UpdatesOnlyTheFirst(filePath: string, parsed: ParsedFilePath, content: TestCaseContent, w: TestcaseWorld)
    requires w.existing.Ok? && |w.existing.value| > 0
    ensures var o := SaveTestcases(filePath, parsed, content, w);
            && o.calls == [GetFrameTestCases(parsed.fileKey, parsed.frameId),
                           UpdateFrameTestcase(w.existing.value[0].id, content)]
            && (o.result.status == Success <==> w.updateError.None?)
  {
  }

  /** A failed lookup of stored test cases is treated as finding none, which leads to the insert path. */
  lemma LookupErrorMeansInsert(filePath: string, w: TestcaseWorld, e: string)
    ensures TestcaseFileUpload(filePath, w.(existing := Err(e)))
         == TestcaseFileUpload(filePath, w.(existing := Ok([])))
  {
    if ParseFilePath(filePath).Ok? {
      RecordsFacts(filePath, ParseFilePath(filePath).value, w, e);
    }
  }

  /**
   * Without stored test cases the frame is looked up and the content inserted
   * under its internal ID; a missing frame fails before the insert.
   */
  lemma InsertPath(filePath: string, parsed: ParsedFilePath, content: TestCaseContent, w: TestcaseWorld)
    requires |ExistingOf(w)| == 0
    ensures var o := SaveTestcases(filePath, parsed, content, w);
            var lookups := [GetFrameTestCases(parsed.fileKey, parsed.frameId), GetFrame(parsed.fileKey, parsed.frameId)];
            && (w.frame.Err? ==> o.calls == lookups && o.result.status == Failed
                                 && o.result.message == "Frame not found: " + w.frame.error)
            && (w.frame.Ok? ==> o.calls == lookups + [InsertFrameTestcase(w.frame.value.id, content)]
                                && (o.result.status == Success <==> w.insertError.None?))
  {
  }

  /** A file succeeds exactly when its update or insert succeeds; the message counts the parsed test cases. */
  lemma SuccessIffSaved(filePath: string, w: TestcaseWorld)
    ensures var r := TestcaseFileUpload(filePath, w).result;
            && (r.status == Success <==>
                  && ReachesLookup(filePath, w)
                  && if |ExistingOf(w)| > 0 then w.updateError.None? else w.frame.Ok? && w.insertError.None?)
            && (r.status == Success ==> r.message == UploadedMessage(TestcasesOfFile(w.csv, filePath).value)
                                        && r.error.None?)
  {
    if ReachesLookup(filePath, w) {
      ParsedFileIsNeverEmpty(w.csv, filePath);
    }
  }

  /** The per-file result names the file by its path and base name. */
  lemma ResultNamesTheFile(filePath: string, w: TestcaseWorld)
    ensures var r := TestcaseFileUpload(filePath, w).result;
            r.filePath == filePath && r.fileName == Base(filePath)
  {
    if ParseFilePath(filePath).Ok? {
      RecordsFacts(filePath, ParseFilePath(filePath).value, w, "");
    }
  }

  // ------------------------------------------------------------ uploadTestcaseFiles

  /** The per-file upload of a run: file `i` meets `worlds(i)`. */
  function TestcaseUploader(worlds: nat -> TestcaseWorld): (nat, string) -> FileOutcome {
    (i: nat, f: string) => TestcaseFileUpload(f, worlds(i))
  }

  /** uploadTestcaseFiles. */
  method UploadTestcaseFiles(files: seq<string>, continueOnError: bool,
                             cancelled: nat -> bool, worlds: nat -> TestcaseWorld)
    returns (results: seq<UploadResult>, calls: seq<RemoteCall>)
    ensures Run(results, calls) == RunFrom(files, 0, continueOnError, cancelled, TestcaseUploader(worlds))
  {
    results, calls := UploadFiles(files, continueOnError, cancelled, TestcaseUploader(worlds));
  }

  // ------------------------------------------------------------ displayUploadSummary

  /** The closing line of the summary. */
  datatype SummaryLine =
    | AllUploaded(success: nat)
    | NoneUploaded
    | SomeUploaded(success: nat, failed: nat, skipped: nat)

  /** The choice of displayUploadSummary, over the summary of all results. */
  function SummaryLineOf(s: UploadSummary): (r: SummaryLine)
    ensures r.AllUploaded? <==> s.failed == 0 && s.skipped == 0
    ensures r.NoneUploaded? <==> (s.failed > 0 || s.skipped > 0) && s.success == 0
    ensures r.AllUploaded? ==> r.success == s.success
    ensures r.SomeUploaded? ==> r == SomeUploaded(s.success, s.failed, s.skipped) && r.success > 0
  {
    if s.failed == 0 && s.skipped == 0 then AllUploaded(s.success)
    else if s.success == 0 then NoneUploaded
    else SomeUploaded(s.success, s.failed, s.skipped)
  }

  /** An empty result list reports that all zero files were uploaded. */
  lemma {:induction false} EmptyRunReportsAllUploaded()
    ensures SummaryLineOf(SummaryOf([])) == AllUploaded(0)
  {
  }

  /**
   * A run whose every result is a success reports them all uploaded; one with
   * no success and some failed or skipped file reports that none was; any
   * other run with a failed or skipped file reports the mix.
   */
  lemma SummaryLineOfResults(results: seq<UploadResult>)
    ensures var line := SummaryLineOf(SummaryOf(results));
            var succeeded := exists k :: 0 <= k < |results| && results[k].status == Success;
            var missed := exists k :: 0 <= k < |results| && results[k].status in {Failed, Skipped};
            && ((forall k :: 0 <= k < |results| ==> results[k].status == Success) ==> line == AllUploaded(|results|))
            && (line.NoneUploaded? <==> !succeeded && missed)
            && (line.SomeUploaded? <==> succeeded && missed)
  {
    CountPositiveIffPresent(results, Success);
    CountPositiveIffPresent(results, Failed);
    CountPositiveIffPresent(results, Skipped);
    if forall k :: 0 <= k < |results| ==> results[k].status == Success {
      AllSuccessCounts(results);
    }
  }

  lemma {:induction false} AllSuccessCounts(results: seq<UploadResult>)
    requires forall k :: 0 <= k < |results| ==> results[k].status == Success
    ensures CountStatus(results, Success) == |results|
    decreases |results|
  {
    if |results| > 0 {
      AllSuccessCounts(results[..|results| - 1]);
    }
  }

  /** displayUploadSummary's line: the summary of the results, then the choice. */
  method DisplayUploadSummary(results: seq<UploadResult>) returns (line: SummaryLine)
    ensures line == SummaryLineOf(SummaryOf(results))
  {
    var summary := NewUploadSummary(results);
    if summary.failed == 0 && summary.skipped == 0 {
      line := AllUploaded(summary.success);
    } else if summary.success == 0 {
      line := NoneUploaded;
    } else {
      line := SomeUploaded(summary.success, summary.failed, summary.skipped);
    }
  }
}
