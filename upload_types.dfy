/**
 * The records of the upload pipeline: a spec row, a test-case row, the nested
 * payload sent to the server, the per-file upload result and the summary
 * counted over those results.
 */
module UploadTypes {
  import opened Wrappers

  /** One test-case row. */
  datatype TestCase = TestCase(
    id: string, step: string, category: string, pageName: string,
    testArea: string, testData: string, subCategory: string,
    subSubCategory: string, preCondition: string, expectedResult: string,
    tcType: string, priority: string, testResults: string,
    executedDate: string, tester: string, note: string)

  /** The content uploaded for one test-case file. */
  datatype TestCaseContent = TestCaseContent(screenName: string, testCases: seq<TestCase>)

  // Design item statuses.
  const StatusDeleted := "deleted"
  const StatusNone := "none"
  const StatusDraft := "draft"
  const StatusCompleted := "completed"

  /**
   * One spec row. Go's `*bool` and `*int` fields are Options; every other field
   * is a string in which "" means "not given".
   */
  datatype Spec = Spec(
    no: string,
    designItemName: string,
    name: string,
    nameTrans: string,
    nodeLinkId: string,
    sectionLinkId: string,
    itemType: string,
    otherType: string,
    buttonType: string,
    dataType: string,
    required: Option<bool>,
    format: string,
    minLength: Option<int>,
    maxLength: Option<int>,
    defaultValue: string,
    validationNote: string,
    action: string,
    linkedFrameId: string,
    navigationNote: string,
    tableName: string,
    columnName: string,
    databaseNote: string,
    description: string,
    isReviewed: Option<bool>)

  datatype ItemSpec = ItemSpec(name: string, nameTrans: string, buttonType: string, otherType: string)

  datatype NavigationSpec = NavigationSpec(action: string, linkedFrameId: string, note: string)

  datatype ValidationSpec = ValidationSpec(
    dataType: string, required: Option<bool>, format: string,
    minLength: Option<int>, maxLength: Option<int>, defaultValue: string, note: string)

  datatype DatabaseSpec = DatabaseSpec(tableName: string, columnName: string, note: string)

  /** The nested `specs` object of a payload; the transformer always fills every group. */
  datatype SpecDetails = SpecDetails(
    item: ItemSpec, navigation: NavigationSpec, validation: ValidationSpec,
    database: DatabaseSpec, description: string)

  /** The write shape of one design item. */
  datatype SpecPayload = SpecPayload(
    itemType: string, no: string, name: string, status: string,
    sectionLinkId: string, nodeLinkId: string, frameId: int, fileId: int,
    isReviewed: Option<bool>, specs: Option<SpecDetails>)

  /** What a path of the form `.momorph/{type}/{file_key}/{frame_id}-{frame_name}.csv` holds. */
  datatype ParsedFilePath = ParsedFilePath(uploadType: string, fileKey: string, frameId: string, frameName: string)

  // Upload statuses. Go's UploadStatus is a string type, so a result may carry any other text too.
  const Success := "success"
  const Failed := "failed"
  const Skipped := "skipped"

  /** The outcome of uploading one file; `error` is the text of the Go error, if any. */
  datatype UploadResult = UploadResult(
    filePath: string, fileName: string, status: string, error: Option<string>, message: string)

  datatype UploadSummary = UploadSummary(
    total: nat, success: nat, failed: nat, skipped: nat, results: seq<UploadResult>)

  /** The number of results that carry `status`. */
  function CountStatus(results: seq<UploadResult>, status: string): nat
  {
    if |results| == 0 then 0
    else CountStatus(results[..|results| - 1], status)
         + (if results[|results| - 1].status == status then 1 else 0)
  }

  /** The summary of a list of results. */
  function SummaryOf(results: seq<UploadResult>): UploadSummary {
    UploadSummary(|results|, CountStatus(results, Success), CountStatus(results, Failed),
                  CountStatus(results, Skipped), results)
  }

  /** Some result carries `status` exactly when its count is positive. */
  lemma {:induction false} CountPositiveIffPresent(results: seq<UploadResult>, status: string)
    ensures CountStatus(results, status) > 0 <==> exists k :: 0 <= k < |results| && results[k].status == status
    decreases |results|
  {
    if |results| > 0 {
      var n := |results| - 1;
      CountPositiveIffPresent(results[..n], status);
      if results[n].status != status && exists k :: 0 <= k < |results| && results[k].status == status {
        var k :| 0 <= k < |results| && results[k].status == status;
        assert results[..n][k] == results[k];
      }
    }
  }

  /** NewUploadSummary: count the results per status. */
  method NewUploadSummary(results: seq<UploadResult>) returns (summary: UploadSummary)
    ensures summary.total == |results| && summary.results == results
    ensures summary.success == CountStatus(results, Success)
    ensures summary.failed == CountStatus(results, Failed)
    ensures summary.skipped == CountStatus(results, Skipped)
    ensures summary == SummaryOf(results)
  {
    var success, failed, skipped := 0, 0, 0;
    for i := 0 to |results|
      invariant success == CountStatus(results[..i], Success)
      invariant failed == CountStatus(results[..i], Failed)
      invariant skipped == CountStatus(results[..i], Skipped)
    {
      assert results[..i + 1][..i] == results[..i];
      var r := results[i];
      if r.status == Success {
        success := success + 1;
      } else if r.status == Failed {
        failed := failed + 1;
      } else if r.status == Skipped {
        skipped := skipped + 1;
      }
    }
    assert results[..|results|] == results;
    summary := UploadSummary(|results|, success, failed, skipped, results);
  }

  /** The three counts add up to the total when every result carries one of the three statuses. */
  lemma {:induction false} CountsPartitionResults(results: seq<UploadResult>)
    requires forall i :: 0 <= i < |results| ==> results[i].status in {Success, Failed, Skipped}
    ensures CountStatus(results, Success) + CountStatus(results, Failed)
            + CountStatus(results, Skipped) == |results|
  {
    if |results| > 0 {
      CountsPartitionResults(results[..|results| - 1]);
    }
  }

  /** A result with some other status counts nowhere: the three counts together stay below the total. */
  lemma {:induction false} OtherStatusCountsNowhere(results: seq<UploadResult>, k: nat)
    requires k < |results| && results[k].status !in {Success, Failed, Skipped}
    ensures CountStatus(results, Success) + CountStatus(results, Failed)
            + CountStatus(results, Skipped) < |results|
  {
    var n := |results| - 1;
    CountsAtMost(results[..n]);
    if k < n {
      OtherStatusCountsNowhere(results[..n], k);
    }
  }

  lemma {:induction false} CountsAtMost(results: seq<UploadResult>)
    ensures CountStatus(results, Success) + CountStatus(results, Failed)
            + CountStatus(results, Skipped) <= |results|
  {
    if |results| > 0 {
      CountsAtMost(results[..|results| - 1]);
    }
  }
}
