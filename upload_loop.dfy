/**
 * The file loop shared by the spec and test-case upload commands: before each
 * file it checks for cancellation, it uploads the file, keeps the result, and
 * stops after the first failure unless asked to continue on errors.
 * `cancelled(i)` says whether the context is done when file `i` is reached;
 * `upload(i, f)` is what uploading file `f`, the i-th, produces.
 */
module UploadLoop {
  import opened UploadTypes
  import opened RemoteTypes

  /** The results and the calls of a run over `files[i..]`. */
  datatype Run = Run(results: seq<UploadResult>, calls: seq<RemoteCall>)

  function RunFrom(files: seq<string>, i: nat, continueOnError: bool,
                   cancelled: nat -> bool, upload: (nat, string) -> FileOutcome): (r: Run)
    requires i <= |files|
    ensures |r.results| <= |files| - i
    decreases |files| - i
  {
    if i == |files| || cancelled(i) then Run([], [])
    else
      var o := upload(i, files[i]);
      if o.result.status == Failed && !continueOnError then Run([o.result], o.calls)
      else
        var rest := RunFrom(files, i + 1, continueOnError, cancelled, upload);
        Run([o.result] + rest.results, o.calls + rest.calls)
  }

  /** uploadSpecFiles / uploadTestcaseFiles: the loop over the files. */
  method UploadFiles(files: seq<string>, continueOnError: bool,
                     cancelled: nat -> bool, upload: (nat, string) -> FileOutcome)
    returns (results: seq<UploadResult>, calls: seq<RemoteCall>)
    ensures Run(results, calls) == RunFrom(files, 0, continueOnError, cancelled, upload)
  {
    ghost var whole := RunFrom(files, 0, continueOnError, cancelled, upload);
    results, calls := [], [];
    var i := 0;
    while i < |files|
      invariant i <= |files|
      invariant results + RunFrom(files, i, continueOnError, cancelled, upload).results == whole.results
      invariant calls + RunFrom(files, i, continueOnError, cancelled, upload).calls == whole.calls
    {
      if cancelled(i) {
        assert results + [] == results && calls + [] == calls;
        return;
      }
      var outcome := upload(i, files[i]);
      ghost var rest := RunFrom(files, i + 1, continueOnError, cancelled, upload);
      if outcome.result.status == Failed && !continueOnError {
        results := results + [outcome.result];
        calls := calls + outcome.calls;
        return;
      }
      assert results + ([outcome.result] + rest.results) == results + [outcome.result] + rest.results;
      assert calls + (outcome.calls + rest.calls) == calls + outcome.calls + rest.calls;
      results := results + [outcome.result];
      calls := calls + outcome.calls;
      i := i + 1;
    }
    assert results + [] == results && calls + [] == calls;
  }

  /** The k-th result is the result of uploading the k-th file: results keep file order. */
  lemma {:induction false} ResultsFollowFiles(files: seq<string>, i: nat, continueOnError: bool,
                                               cancelled: nat -> bool, upload: (nat, string) -> FileOutcome, k: nat)
    requires i <= |files|
    requires k < |RunFrom(files, i, continueOnError, cancelled, upload).results|
    ensures i + k < |files|
    ensures RunFrom(files, i, continueOnError, cancelled, upload).results[k] == upload(i + k, files[i + k]).result
    decreases |files| - i
  {
    if k > 0 {
      ResultsFollowFiles(files, i + 1, continueOnError, cancelled, upload, k - 1);
    }
  }

  /** Without continueOnError, no result before the last one is a failure. */
  lemma {:induction false} OnlyTheLastMayFail(files: seq<string>, i: nat,
                                               cancelled: nat -> bool, upload: (nat, string) -> FileOutcome, k: nat)
    requires i <= |files|
    requires k + 1 < |RunFrom(files, i, false, cancelled, upload).results|
    ensures RunFrom(files, i, false, cancelled, upload).results[k].status != Failed
    decreases |files| - i
  {
    if k > 0 {
      OnlyTheLastMayFail(files, i + 1, cancelled, upload, k - 1);
    }
  }

  /**
   * A run ends early only through cancellation when the next file is reached,
   * or after a failure when not continuing on errors.
   */
  lemma {:induction false} EndsEarlyOnlyForCause(files: seq<string>, i: nat, continueOnError: bool,
                                                  cancelled: nat -> bool, upload: (nat, string) -> FileOutcome)
    requires i <= |files|
    ensures var r := RunFrom(files, i, continueOnError, cancelled, upload).results;
            var n := |r|;
            n < |files| - i ==>
              cancelled(i + n) || (n > 0 && r[n - 1].status == Failed && !continueOnError)
    decreases |files| - i
  {
    if i < |files| && !cancelled(i) {
      var o := upload(i, files[i]);
      if !(o.result.status == Failed && !continueOnError) {
        EndsEarlyOnlyForCause(files, i + 1, continueOnError, cancelled, upload);
      }
    }
  }

  /** Skipped and successful files never stop the run: with no cancellation and no failure, every file is uploaded. */
  lemma {:induction false} CompletesWithoutFailure(files: seq<string>, i: nat, continueOnError: bool,
                                                    cancelled: nat -> bool, upload: (nat, string) -> FileOutcome)
    requires i <= |files|
    requires forall j :: i <= j < |files| ==> !cancelled(j) && upload(j, files[j]).result.status != Failed
    ensures |RunFrom(files, i, continueOnError, cancelled, upload).results| == |files| - i
    decreases |files| - i
  {
    if i < |files| {
      CompletesWithoutFailure(files, i + 1, continueOnError, cancelled, upload);
    }
  }

  /** The calls of a run are those of its files, in order: a failure stops the calls too. */
  lemma {:induction false} CallsFollowFiles(files: seq<string>, i: nat, continueOnError: bool,
                                             cancelled: nat -> bool, upload: (nat, string) -> FileOutcome)
    requires i <= |files|
    ensures var r := RunFrom(files, i, continueOnError, cancelled, upload);
            r.calls == CallsOf(files, i, |r.results|, upload)
    decreases |files| - i
  {
    if i < |files| && !cancelled(i) {
      var o := upload(i, files[i]);
      if !(o.result.status == Failed && !continueOnError) {
        CallsFollowFiles(files, i + 1, continueOnError, cancelled, upload);
      }
    }
  }

  /** The calls of uploading files `i` to `i + n - 1`, concatenated. */
  function CallsOf(files: seq<string>, i: nat, n: nat, upload: (nat, string) -> FileOutcome): seq<RemoteCall>
    requires i + n <= |files|
    decreases n
  {
    if n == 0 then [] else upload(i, files[i]).calls + CallsOf(files, i + 1, n - 1, upload)
  }
}
