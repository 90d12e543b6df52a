/**
 * Choosing the files to upload: the validation of a file list into valid
 * files and skip entries, and the de-duplicating collector that gathers the
 * candidate paths. The file system is seen through `stat` (what `os.Stat`
 * reports for a path) and `abs` (what `filepath.Abs` returns).
 */
module UploadResolver {
  import opened Wrappers
  import opened GoStrings
  import opened UploadTypes
  import opened UploadParser

  /** What `os.Stat` reports about an existing path. */
  datatype FileInfo = FileInfo(isDir: bool, size: nat)

  /** The `.csv` test of the resolver, case-insensitive. */
  predicate IsCsvName(path: string) { HasSuffix(ToLower(path), ".csv") }

  /** A skip entry for `file`. */
  function SkipEntry(file: string, err: Option<string>, message: string): (r: UploadResult)
    ensures r.status == Skipped && r.filePath == file && r.fileName == Base(file)
  {
    UploadResult(file, Base(file), Skipped, err, message)
  }

  function TypeMismatch(expected: string, got: string): string {
    "File type mismatch: expected " + expected + ", got " + got
  }

  /**
   * The checks of ValidateFiles on one file, in their order: the skip entry of
   * the first check it fails, or None when it passes them all.
   */
  function FirstFailedCheck(file: string, uploadType: string, stat: Result<FileInfo>): (r: Option<UploadResult>)
    ensures r.Some? ==> r.value.status == Skipped && r.value.filePath == file && r.value.fileName == Base(file)
  {
    match stat
    case Err(e) => Some(SkipEntry(file, Some(e), "File not found"))
    case Ok(info) =>
      if info.isDir then Some(SkipEntry(file, None, "Path is a directory, not a file"))
      else if !IsCsvName(file) then Some(SkipEntry(file, None, "Not a CSV file"))
      else
        match ParseFilePath(file)
        case Err(e) => Some(SkipEntry(file, Some(e), "Invalid file path format"))
        case Ok(parsed) =>
          if uploadType != "" && parsed.uploadType != uploadType then
            Some(SkipEntry(file, None, TypeMismatch(uploadType, parsed.uploadType)))
          else if info.size == 0 then Some(SkipEntry(file, None, "File is empty"))
          else None
  }

  /** A file is valid exactly when it exists, is a non-empty CSV file with a well-formed path and, if asked, of the asked type. */
  lemma ValidIffAllChecksPass(file: string, uploadType: string, stat: Result<FileInfo>)
    ensures FirstFailedCheck(file, uploadType, stat).None? <==>
            && stat.Ok? && !stat.value.isDir && stat.value.size > 0
            && IsCsvName(file)
            && ParseFilePath(file).Ok?
            && (uploadType == "" || ParseFilePath(file).value.uploadType == uploadType)
  {
  }

  /** Without an asked type no file is skipped for its type. */
  lemma EmptyTypeAcceptsEveryType(file: string, stat: Result<FileInfo>)
    ensures var r := FirstFailedCheck(file, "", stat);
            r.Some? ==> r.value.message in {"File not found", "Path is a directory, not a file",
                                            "Not a CSV file", "Invalid file path format", "File is empty"}
  {
  }

  /** The checks come in order: a missing file is reported as such, whatever its name. */
  lemma MissingFileComesFirst(file: string, uploadType: string, e: string)
    ensures FirstFailedCheck(file, uploadType, Err(e)) == Some(SkipEntry(file, Some(e), "File not found"))
  {
  }

  /** An empty file is reported only when every other check passes. */
  lemma EmptyFileComesLast(file: string, uploadType: string, stat: Result<FileInfo>)
    requires FirstFailedCheck(file, uploadType, stat).Some?
    requires FirstFailedCheck(file, uploadType, stat).value.message == "File is empty"
    ensures stat.Ok? && !stat.value.isDir && stat.value.size == 0 && IsCsvName(file)
    ensures ParseFilePath(file).Ok?
    ensures uploadType == "" || ParseFilePath(file).value.uploadType == uploadType
  {
  }

  /** The `.csv` test ignores case. */
  lemma CsvTestIgnoresCase(a: string, b: string)
    requires EqualFold(a, b)
    ensures IsCsvName(a) <==> IsCsvName(b)
  {
  }

  /** The files of `files` that pass every check, in input order. */
  function ValidOf(files: seq<string>, uploadType: string, stat: string -> Result<FileInfo>): seq<string>
    decreases |files|
  {
    if |files| == 0 then []
    else
      var init := ValidOf(files[..|files| - 1], uploadType, stat);
      var f := files[|files| - 1];
      if FirstFailedCheck(f, uploadType, stat(f)).None? then init + [f] else init
  }

  /** The skip entries of the files of `files` that fail a check, in input order. */
  function SkippedOf(files: seq<string>, uploadType: string, stat: string -> Result<FileInfo>): seq<UploadResult>
    decreases |files|
  {
    if |files| == 0 then []
    else
      var init := SkippedOf(files[..|files| - 1], uploadType, stat);
      var f := files[|files| - 1];
      match FirstFailedCheck(f, uploadType, stat(f))
      case None => init
      case Some(entry) => init + [entry]
  }

  /** ValidateFiles: splits the list into valid files and skip entries. */
  method ValidateFiles(files: seq<string>, uploadType: string, stat: string -> Result<FileInfo>)
    returns (validFiles: seq<string>, skipped: seq<UploadResult>)
    ensures validFiles == ValidOf(files, uploadType, stat)
    ensures skipped == SkippedOf(files, uploadType, stat)
  {
    validFiles, skipped := [], [];
    for i := 0 to |files|
      invariant validFiles == ValidOf(files[..i], uploadType, stat)
      invariant skipped == SkippedOf(files[..i], uploadType, stat)
    {
      assert files[..i + 1][..i] == files[..i];
      var file := files[i];
      var check := FirstFailedCheck(file, uploadType, stat(file));
      if check.Some? {
        skipped := skipped + [check.value];
        continue;
      }
      validFiles := validFiles + [file];
    }
    assert files[..|files|] == files;
  }

  /** Every file lands in exactly one of the two lists. */
  lemma {:induction false} ValidatePartitions(files: seq<string>, uploadType: string, stat: string -> Result<FileInfo>)
    ensures |ValidOf(files, uploadType, stat)| + |SkippedOf(files, uploadType, stat)| == |files|
    decreases |files|
  {
    if |files| > 0 {
      ValidatePartitions(files[..|files| - 1], uploadType, stat);
    }
  }

  /** Both lists keep input order: validating two lists in turn gives the concatenation of the results. */
  lemma {:induction false} ValidateKeepsOrder(a: seq<string>, b: seq<string>, uploadType: string, stat: string -> Result<FileInfo>)
    ensures ValidOf(a + b, uploadType, stat) == ValidOf(a, uploadType, stat) + ValidOf(b, uploadType, stat)
    ensures SkippedOf(a + b, uploadType, stat) == SkippedOf(a, uploadType, stat) + SkippedOf(b, uploadType, stat)
    decreases |b|
  {
    if |b| == 0 {
      assert a + b == a;
    } else {
      var n := |b| - 1;
      assert (a + b)[..|a + b| - 1] == a + b[..n];
      ValidateKeepsOrder(a, b[..n], uploadType, stat);
    }
  }

  /** Every skip entry is Skipped and names its file by its base name. */
  lemma {:induction false} SkippedEntriesAreSkipped(files: seq<string>, uploadType: string, stat: string -> Result<FileInfo>, k: nat)
    requires k < |SkippedOf(files, uploadType, stat)|
    ensures var e := SkippedOf(files, uploadType, stat)[k];
            e.status == Skipped && e.fileName == Base(e.filePath) && e.filePath in files
    decreases |files|
  {
    var n := |files| - 1;
    var init := SkippedOf(files[..n], uploadType, stat);
    if k < |init| {
      SkippedEntriesAreSkipped(files[..n], uploadType, stat, k);
    }
  }

  /** Every valid file is one of the inputs and passes every check. */
  lemma {:induction false} ValidFilesPass(files: seq<string>, uploadType: string, stat: string -> Result<FileInfo>, k: nat)
    requires k < |ValidOf(files, uploadType, stat)|
    ensures var f := ValidOf(files, uploadType, stat)[k];
            f in files && FirstFailedCheck(f, uploadType, stat(f)).None?
    decreases |files|
  {
    var n := |files| - 1;
    var init := ValidOf(files[..n], uploadType, stat);
    if k < |init| {
      ValidFilesPass(files[..n], uploadType, stat, k);
    }
  }

  // ------------------------------------------------------------ addFile

  /** What addFile keeps: a CSV file whose path matches the pattern. */
  predicate Collectable(absPath: string, info: FileInfo) {
    !info.isDir && IsCsvName(absPath) && ParseFilePath(absPath).Ok?
  }

  /** A path that addFile collects when it has not been seen: it resolves to an existing collectable file. */
  ghost predicate WouldCollect(path: string, abs: string -> Result<string>, stat: string -> Result<FileInfo>) {
    abs(path).Ok? && stat(abs(path).value).Ok? && Collectable(abs(path).value, stat(abs(path).value).value)
  }

  /** The absolute paths that `abs` resolves some of `paths` to. */
  function Resolved(paths: seq<string>, abs: string -> Result<string>): set<string>
    decreases |paths|
  {
    if |paths| == 0 then {}
    else
      var last := abs(paths[|paths| - 1]);
      Resolved(paths[..|paths| - 1], abs) + (if last.Ok? then {last.value} else {})
  }

  /** A path is resolved from `paths` exactly when one of them resolves to it. */
  lemma {:induction false} ResolvedMembers(paths: seq<string>, abs: string -> Result<string>, p: string)
    ensures p in Resolved(paths, abs) <==> exists i :: 0 <= i < |paths| && abs(paths[i]) == Ok(p)
    decreases |paths|
  {
    if |paths| > 0 {
      var init := paths[..|paths| - 1];
      ResolvedMembers(init, abs, p);
      if exists i :: 0 <= i < |paths| && abs(paths[i]) == Ok(p) {
        var i :| 0 <= i < |paths| && abs(paths[i]) == Ok(p);
        if i < |init| {
          assert init[i] == paths[i];
        }
      }
      if exists i :: 0 <= i < |init| && abs(init[i]) == Ok(p) {
        var i :| 0 <= i < |init| && abs(init[i]) == Ok(p);
        assert paths[i] == init[i];
      }
    }
  }

  /**
   * The `files` list and `seen` set of ResolveFiles, as `addFile` updates
   * them: each absolute path is added at most once, and only collectable ones.
   */
  class FileCollector {
    var files: seq<string>
    var seen: map<string, bool>

    ghost predicate Valid()
      reads this
    {
      && (forall p :: p in seen <==> p in files)
      && (forall p :: p in seen ==> seen[p])
      && (forall i, j :: 0 <= i < j < |files| ==> files[i] != files[j])
      && (forall i :: 0 <= i < |files| ==> IsCsvName(files[i]) && ParseFilePath(files[i]).Ok?)
    }

    constructor ()
      ensures Valid() && files == [] && seen == map[]
    {
      files := [];
      seen := map[];
    }

    /**
     * addFile: resolve the path, skip it when already seen, fail when it does
     * not exist, skip directories, non-CSV files and non-matching paths, and
     * otherwise append it.
     */
    method AddFile(path: string, abs: string -> Result<string>, stat: string -> Result<FileInfo>)
      returns (err: Option<string>)
      requires Valid()
      modifies this
      ensures Valid()
      ensures files == old(files) || (abs(path).Ok? && files == old(files) + [abs(path).value])
      ensures abs(path).Err? ==>
                err == Some("failed to resolve path " + path + ": " + abs(path).error)
                && files == old(files) && seen == old(seen)
      ensures abs(path).Ok? ==>
                var a := abs(path).value;
                if a in old(seen) then err.None? && files == old(files) && seen == old(seen)
                else if stat(a).Err? then err == Some("file not found: " + path) && files == old(files) && seen == old(seen)
                else if Collectable(a, stat(a).value) then
                  err.None? && files == old(files) + [a] && seen == old(seen)[a := true]
                else err.None? && files == old(files) && seen == old(seen)
    {
      var resolved := abs(path);
      if resolved.Err? {
        return Some("failed to resolve path " + path + ": " + resolved.error);
      }
      var absPath := resolved.value;
      if absPath in seen && seen[absPath] {
        return None;
      }
      var info := stat(absPath);
      if info.Err? {
        return Some("file not found: " + path);
      }
      if info.value.isDir {
        return None;
      }
      if !IsCsvName(absPath) {
        return None;
      }
      if ParseFilePath(absPath).Err? {
        return None;
      }
      Append(absPath);
      return None;
    }

    /** Records a collectable path that was not seen before. */
    method Append(a: string)
      requires Valid() && a !in seen && IsCsvName(a) && ParseFilePath(a).Ok?
      modifies this
      ensures Valid() && files == old(files) + [a] && seen == old(seen)[a := true]
    {
      ghost var before := files;
      assert a !in before;
      seen := seen[a := true];
      files := files + [a];
      assert forall i :: 0 <= i < |before| ==> files[i] == before[i];
      assert files[|before|] == a;
      forall i, j | 0 <= i < j < |files|
        ensures files[i] != files[j]
      {
        if j == |before| {
          assert files[i] in before;
        }
      }
    }

    /**
     * The loops of ResolveFiles over glob matches and directory files: add each
     * path, going on past errors. Every path that resolves to an existing
     * collectable file ends up in the list; nothing else is added.
     */
    method AddAll(paths: seq<string>, abs: string -> Result<string>, stat: string -> Result<FileInfo>)
      requires Valid()
      modifies this
      ensures Valid()
      ensures |old(files)| <= |files| && files[..|old(files)|] == old(files)
      ensures forall p :: p in files ==> p in old(files) || p in Resolved(paths, abs)
      ensures forall k :: 0 <= k < |paths| && WouldCollect(paths[k], abs, stat) ==> abs(paths[k]).value in files
    {
      for i := 0 to |paths|
        invariant Valid()
        invariant |old(files)| <= |files| && files[..|old(files)|] == old(files)
        invariant forall p :: p in files ==> p in old(files) || p in Resolved(paths[..i], abs)
        invariant forall k :: 0 <= k < i && WouldCollect(paths[k], abs, stat) ==> abs(paths[k]).value in files
      {
        assert paths[..i + 1][..i] == paths[..i];
        ghost var before := files;
        var _ := AddFile(paths[i], abs, stat);
        forall k | 0 <= k < i + 1 && WouldCollect(paths[k], abs, stat)
          ensures abs(paths[k]).value in files
        {
          if k < i {
            assert abs(paths[k]).value in before;
          }
        }
      }
      assert paths[..|paths|] == paths;
    }
  }
}
