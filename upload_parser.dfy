/**
 * Reading upload files: the file path pattern, the mapping of CSV records to
 * spec and test-case rows, and the shaping of a spec into the payload the
 * server receives. A CSV file is given as its records (rows of cells) as the
 * CSV reader returns them.
 */
module UploadParser {
  import opened Wrappers
  import opened GoStrings
  import opened UploadTypes
  import UploadValidator

  // ------------------------------------------------------------ the file path

  const PatternMismatch := "file path does not match expected pattern: .momorph/{testcases|specs}/{file_key}/{frame_id}-{frame_name}.csv"
  const EmptyPathPart := "invalid file path: file_key, frame_id, and frame_name must not be empty"

  /**
   * The pattern `\.momorph/(testcases|specs)/([^/]+)/([^-]+)-([^.]+)\.csv$`
   * matched at byte `i` of `s`, with its four groups. The groups are
   * determined by the start: the file key runs to the next `/`, the frame ID
   * to the next `-`, and the frame name is what is left before the final
   * `.csv`, which must contain no `.`.
   */
  function MatchAt(s: string, i: nat): (r: Option<ParsedFilePath>)
    requires i <= |s|
  {
    var rest := s[i..];
    if HasPrefix(rest, ".momorph/") then MatchType(rest[9..]) else None
  }

  /** The `(testcases|specs)/` group and what follows it. */
  function MatchType(a: string): (r: Option<ParsedFilePath>)
  {
    if HasPrefix(a, "testcases/") then MatchKey("testcases", a[10..])
    else if HasPrefix(a, "specs/") then MatchKey("specs", a[6..])
    else None
  }

  /** The `([^/]+)/` group: the file key. */
  function MatchKey(uploadType: string, b: string): (r: Option<ParsedFilePath>)
  {
    var j := IndexByte(b, '/');
    if j <= 0 then None else MatchFrame(uploadType, b[..j], b[j + 1..])
  }

  /** The `([^-]+)-` group: the frame ID. */
  function MatchFrame(uploadType: string, fileKey: string, c: string): (r: Option<ParsedFilePath>)
  {
    var k := IndexByte(c, '-');
    if k <= 0 then None else MatchName(uploadType, fileKey, c[..k], c[k + 1..])
  }

  /** The `([^.]+)\.csv$` group: the frame name, up to the final `.csv`. */
  function MatchName(uploadType: string, fileKey: string, frameId: string, d: string): (r: Option<ParsedFilePath>)
  {
    if !HasSuffix(d, ".csv") || |d| == 4 || '.' in d[..|d| - 4] then None
    else Some(ParsedFilePath(uploadType, fileKey, frameId, d[..|d| - 4]))
  }

  /** The leftmost byte at or after `i` where the pattern matches, or -1: where `FindStringSubmatch` matches. */
  function MatchStart(s: string, i: nat): (r: int)
    requires i <= |s|
    ensures r == -1 || (i <= r <= |s| && MatchAt(s, r).Some?)
    decreases |s| - i
  {
    if MatchAt(s, i).Some? then i
    else if i == |s| then -1
    else MatchStart(s, i + 1)
  }

  /** No match starts before the reported one, and -1 means no match at all. */
  lemma {:induction false} MatchStartIsLeftmost(s: string, i: nat, j: nat)
    requires i <= j <= |s|
    requires MatchStart(s, i) == -1 || j < MatchStart(s, i)
    ensures MatchAt(s, j).None?
    decreases j - i
  {
    if j > i {
      MatchStartIsLeftmost(s, i + 1, j);
    }
  }

  /**
   * ParseFilePath: back-slashes become slashes, the leftmost match supplies the
   * four parts, the type is lower-cased and the other three are trimmed; an
   * empty part is an error.
   */
  function ParseFilePath(fullFilePath: string): (r: Result<ParsedFilePath>)
  {
    var normalized := ReplaceByte(fullFilePath, '\\', '/');
    var start := MatchStart(normalized, 0);
    if start == -1 then Err(PatternMismatch) else CleanParts(MatchAt(normalized, start).value)
  }

  /** The clean-up of the matched groups: trim three, reject an empty one, lower-case the type. */
  function CleanParts(g: ParsedFilePath): (r: Result<ParsedFilePath>)
  {
    var fileKey := TrimSpace(g.fileKey);
    var frameId := TrimSpace(g.frameId);
    var frameName := TrimSpace(g.frameName);
    if fileKey == "" || frameId == "" || frameName == "" then Err(EmptyPathPart)
    else Ok(ParsedFilePath(ToLower(g.uploadType), fileKey, frameId, frameName))
  }

  /** What the frame-name stage keeps: the earlier groups, a dot-free name taken from `d`, and `d`'s `.csv` end. */
  lemma MatchNameFacts(uploadType: string, fileKey: string, frameId: string, d: string, x: char)
    requires MatchName(uploadType, fileKey, frameId, d).Some?
    ensures var g := MatchName(uploadType, fileKey, frameId, d).value;
            && g.uploadType == uploadType && g.fileKey == fileKey && g.frameId == frameId
            && '.' !in g.frameName && (x !in d ==> x !in g.frameName) && HasSuffix(d, ".csv")
  {
  }

  /** What the frame-ID stage adds: a dash-free ID taken from `c`. */
  lemma MatchFrameFacts(uploadType: string, fileKey: string, c: string, x: char)
    requires MatchFrame(uploadType, fileKey, c).Some?
    ensures var g := MatchFrame(uploadType, fileKey, c).value;
            && g.uploadType == uploadType && g.fileKey == fileKey
            && '-' !in g.frameId && '.' !in g.frameName
            && (x !in c ==> x !in g.frameId && x !in g.frameName) && HasSuffix(c, ".csv")
  {
    var k := IndexByte(c, '-');
    MatchNameFacts(uploadType, fileKey, c[..k], c[k + 1..], x);
    SuffixOfDrop(c, k + 1, ".csv");
  }

  /** What the file-key stage adds: a slash-free key taken from `b`. */
  lemma MatchKeyFacts(uploadType: string, b: string, x: char)
    requires MatchKey(uploadType, b).Some?
    ensures var g := MatchKey(uploadType, b).value;
            && g.uploadType == uploadType
            && '/' !in g.fileKey && '-' !in g.frameId && '.' !in g.frameName
            && (x !in b ==> x !in g.fileKey && x !in g.frameId && x !in g.frameName)
            && HasSuffix(b, ".csv")
  {
    var j := IndexByte(b, '/');
    MatchFrameFacts(uploadType, b[..j], b[j + 1..], x);
    SuffixOfDrop(b, j + 1, ".csv");
  }

  /**
   * The groups of a match: one of the two type words, a slash-free file key, a
   * dash-free frame ID and a dot-free frame name, none holding a byte absent
   * from `s`; and `s` ends in `.csv`.
   */
  lemma MatchAtFacts(s: string, i: nat, x: char)
    requires i <= |s| && MatchAt(s, i).Some?
    ensures var g := MatchAt(s, i).value;
            && (g.uploadType == "testcases" || g.uploadType == "specs")
            && '/' !in g.fileKey && '-' !in g.frameId && '.' !in g.frameName
            && (x !in s ==> x !in g.fileKey && x !in g.frameId && x !in g.frameName)
            && HasSuffix(s, ".csv")
  {
    var a := s[i..][9..];
    assert a == s[i + 9..];
    if HasPrefix(a, "testcases/") {
      MatchKeyFacts("testcases", a[10..], x);
      SuffixOfDrop(a, 10, ".csv");
    } else {
      MatchKeyFacts("specs", a[6..], x);
      SuffixOfDrop(a, 6, ".csv");
    }
    SuffixOfDrop(s, i + 9, ".csv");
  }

  /** What a parsed path holds: one of the two types, and non-empty, trimmed parts free of their separators. */
  lemma ParsedPathParts(fullFilePath: string)
    requires ParseFilePath(fullFilePath).Ok?
    ensures WellFormedParts(ParseFilePath(fullFilePath).value)
    ensures HasSuffix(ReplaceByte(fullFilePath, '\\', '/'), ".csv")
  {
    var s := ReplaceByte(fullFilePath, '\\', '/');
    MatchAtFacts(s, MatchStart(s, 0), '\\');
    ReplaceByteRemoves(fullFilePath, '\\', '/');
    CleanPartsFacts(MatchAt(s, MatchStart(s, 0)).value);
  }

  /** Clean-up keeps the separator-free groups separator-free and leaves them trimmed. */
  lemma CleanPartsFacts(g: ParsedFilePath)
    requires CleanParts(g).Ok?
    requires g.uploadType == "testcases" || g.uploadType == "specs"
    requires '/' !in g.fileKey && '-' !in g.frameId && '.' !in g.frameName
    requires '\\' !in g.fileKey && '\\' !in g.frameId && '\\' !in g.frameName
    ensures WellFormedParts(CleanParts(g).value)
  {
    TypeWordsAreLower();
    TrimSpaceKeepsOut(g.fileKey, '/');
    TrimSpaceKeepsOut(g.frameId, '-');
    TrimSpaceKeepsOut(g.frameName, '.');
    TrimSpaceKeepsOut(g.fileKey, '\\');
    TrimSpaceKeepsOut(g.frameId, '\\');
    TrimSpaceKeepsOut(g.frameName, '\\');
    TrimSpaceIsTrimmed(g.fileKey);
    TrimSpaceIsTrimmed(g.frameId);
    TrimSpaceIsTrimmed(g.frameName);
  }

  /** The two type words are already lower case. */
  lemma TypeWordsAreLower()
    ensures ToLower("testcases") == "testcases" && ToLower("specs") == "specs"
  {
    LowerOfLower("testcases");
    LowerOfLower("specs");
  }

  /** A Windows path and its slash form parse alike. */
  lemma BackslashesAreSlashes(fullFilePath: string)
    ensures ParseFilePath(fullFilePath) == ParseFilePath(ReplaceByte(fullFilePath, '\\', '/'))
  {
    ReplaceByteIdempotent(fullFilePath, '\\', '/');
  }

  /** The path a file of the given parts is stored under. */
  function FilePathOf(p: ParsedFilePath): string {
    ".momorph/" + p.uploadType + "/" + p.fileKey + "/" + p.frameId + "-" + p.frameName + ".csv"
  }

  /** Parts of the form ParseFilePath produces. */
  predicate WellFormedParts(p: ParsedFilePath) {
    && (p.uploadType == "testcases" || p.uploadType == "specs")
    && p.fileKey != "" && p.frameId != "" && p.frameName != ""
    && IsTrimmed(p.fileKey) && IsTrimmed(p.frameId) && IsTrimmed(p.frameName)
    && '/' !in p.fileKey && '-' !in p.frameId && '.' !in p.frameName
    && '\\' !in p.fileKey && '\\' !in p.frameId && '\\' !in p.frameName
  }

  /** A separator placed after separator-free text is found right there. */
  lemma IndexByteAfter(a: string, c: char, b: string)
    requires c !in a
    ensures IndexByte(a + [c] + b, c) == |a|
  {
    var s := a + [c] + b;
    assert s[..|a|] == a;
    IndexByteIsFirst(s, c, |a|);
  }

  /** A dot-free, non-empty name before `.csv` is the frame-name group. */
  lemma MatchNameOf(uploadType: string, fileKey: string, frameId: string, frameName: string)
    requires frameName != "" && '.' !in frameName
    ensures MatchName(uploadType, fileKey, frameId, frameName + ".csv")
            == Some(ParsedFilePath(uploadType, fileKey, frameId, frameName))
  {
    var d := frameName + ".csv";
    assert d[|d| - 4..] == ".csv";
    assert d[..|d| - 4] == frameName;
  }

  /** A dash-free, non-empty ID before `-` is the frame-ID group. */
  lemma MatchFrameOf(uploadType: string, fileKey: string, frameId: string, frameName: string)
    requires frameId != "" && '-' !in frameId && frameName != "" && '.' !in frameName
    ensures MatchFrame(uploadType, fileKey, frameId + "-" + frameName + ".csv")
            == Some(ParsedFilePath(uploadType, fileKey, frameId, frameName))
  {
    var rest := frameName + ".csv";
    var c := frameId + "-" + frameName + ".csv";
    assert c == frameId + ['-'] + rest;
    IndexByteAfter(frameId, '-', rest);
    assert c[..|frameId|] == frameId;
    assert c[|frameId| + 1..] == rest;
    MatchNameOf(uploadType, fileKey, frameId, frameName);
  }

  /** A slash-free, non-empty key before `/` is the file-key group. */
  lemma MatchKeyOf(p: ParsedFilePath)
    requires p.fileKey != "" && '/' !in p.fileKey
    requires p.frameId != "" && '-' !in p.frameId && p.frameName != "" && '.' !in p.frameName
    ensures MatchKey(p.uploadType, p.fileKey + "/" + p.frameId + "-" + p.frameName + ".csv") == Some(p)
  {
    var rest := p.frameId + "-" + p.frameName + ".csv";
    var b := p.fileKey + "/" + p.frameId + "-" + p.frameName + ".csv";
    assert b == p.fileKey + ['/'] + rest;
    IndexByteAfter(p.fileKey, '/', rest);
    assert b[..|p.fileKey|] == p.fileKey;
    assert b[|p.fileKey| + 1..] == rest;
    MatchFrameOf(p.uploadType, p.fileKey, p.frameId, p.frameName);
  }

  /** After `testcases/` the rest is matched as the file key onwards. */
  lemma MatchTypeTestcases(tail: string)
    ensures MatchType("testcases/" + tail) == MatchKey("testcases", tail)
  {
    var a := "testcases/" + tail;
    assert a[..10] == "testcases/";
    assert a[10..] == tail;
  }

  /** After `specs/` the rest is matched as the file key onwards. */
  lemma MatchTypeSpecs(tail: string)
    ensures MatchType("specs/" + tail) == MatchKey("specs", tail)
  {
    var a := "specs/" + tail;
    assert a[..6] == "specs/";
    assert a[6..] == tail;
    assert !HasPrefix(a, "testcases/") by {
      if |a| >= 10 { assert a[1] == 'p'; }
    }
  }

  /** A path starting with `.momorph/` and a type word matches from the file key onwards. */
  lemma MatchAtPrefix(uploadType: string, tail: string)
    requires uploadType == "testcases" || uploadType == "specs"
    ensures MatchAt(".momorph/" + (uploadType + "/" + tail), 0) == MatchKey(uploadType, tail)
  {
    var a := uploadType + "/" + tail;
    var s := ".momorph/" + a;
    assert s[0..] == s;
    assert s[..9] == ".momorph/";
    assert s[9..] == a;
    if uploadType == "testcases" {
      assert a == "testcases/" + tail;
      MatchTypeTestcases(tail);
    } else {
      assert a == "specs/" + tail;
      MatchTypeSpecs(tail);
    }
  }

  /** The path built from well-formed parts matches at its first byte, with those parts as groups. */
  lemma MatchAtOf(p: ParsedFilePath)
    requires WellFormedParts(p)
    ensures MatchAt(FilePathOf(p), 0) == Some(p)
  {
    var tail := p.fileKey + "/" + p.frameId + "-" + p.frameName + ".csv";
    assert FilePathOf(p) == ".momorph/" + (p.uploadType + "/" + tail);
    MatchAtPrefix(p.uploadType, tail);
    MatchKeyOf(p);
  }

  /** Building the path of well-formed parts and parsing it gives the parts back. */
  lemma ParseFilePathOf(p: ParsedFilePath)
    requires WellFormedParts(p)
    ensures ParseFilePath(FilePathOf(p)) == Ok(p)
  {
    var s := FilePathOf(p);
    assert '\\' !in s;
    ReplaceByteOfAbsent(s, '\\', '/');
    MatchAtOf(p);
    TypeWordsAreLower();
    TrimSpaceOfTrimmed(p.fileKey);
    TrimSpaceOfTrimmed(p.frameId);
    TrimSpaceOfTrimmed(p.frameName);
  }

  // ------------------------------------------------------------ CSV records

  const NoDataRows := "CSV file is empty or has no data rows"

  /** The header's column index: each trimmed header name maps to the last column carrying it. */
  function ColumnIndex(header: seq<string>): map<string, nat>
    decreases |header|
  {
    if |header| == 0 then map[]
    else ColumnIndex(header[..|header| - 1])[TrimSpace(header[|header| - 1]) := |header| - 1]
  }

  /** A name is indexed iff some column carries it, and it points at the last such column. */
  lemma {:induction false} ColumnIndexIsLastColumn(header: seq<string>, col: string)
    ensures col in ColumnIndex(header) <==> exists i :: 0 <= i < |header| && TrimSpace(header[i]) == col
    ensures col in ColumnIndex(header) ==>
              var i := ColumnIndex(header)[col];
              && i < |header| && TrimSpace(header[i]) == col
              && forall j :: i < j < |header| ==> TrimSpace(header[j]) != col
    decreases |header|
  {
    if |header| > 0 {
      var n := |header| - 1;
      var init := header[..n];
      ColumnIndexIsLastColumn(init, col);
      if TrimSpace(header[n]) != col {
        if exists i :: 0 <= i < |header| && TrimSpace(header[i]) == col {
          var i :| 0 <= i < |header| && TrimSpace(header[i]) == col;
          assert init[i] == header[i];
        }
      }
    }
  }

  /** The column-index loop of ParseSpecsCSV and ParseTestcasesCSV. */
  method BuildColumnIndex(header: seq<string>) returns (colIndex: map<string, nat>)
    ensures colIndex == ColumnIndex(header)
  {
    colIndex := map[];
    for i := 0 to |header|
      invariant colIndex == ColumnIndex(header[..i])
    {
      assert header[..i + 1][..i] == header[..i];
      colIndex := colIndex[TrimSpace(header[i]) := i];
    }
    assert header[..|header|] == header;
  }

  /** getValue: the trimmed cell of the named column, or "" when the column is unknown or the row too short. */
  function GetValue(row: seq<string>, colIndex: map<string, nat>, col: string): string {
    if col in colIndex && colIndex[col] < |row| then TrimSpace(row[colIndex[col]]) else ""
  }

  lemma GetValueIsTrimmed(row: seq<string>, colIndex: map<string, nat>, col: string)
    ensures IsTrimmed(GetValue(row, colIndex, col))
  {
    if col in colIndex && colIndex[col] < |row| {
      TrimSpaceIsTrimmed(row[colIndex[col]]);
    }
  }

  /** Against a header: the value is the cell under the last column of that name, or "" without one. */
  lemma GetValueOfHeader(header: seq<string>, row: seq<string>, col: string, i: nat)
    requires i < |header| && TrimSpace(header[i]) == col
    requires forall j :: i < j < |header| ==> TrimSpace(header[j]) != col
    ensures GetValue(row, ColumnIndex(header), col) == if i < |row| then TrimSpace(row[i]) else ""
  {
    ColumnIndexAt(header, col, i);
  }

  /** The last column carrying a name is the one the index records for it. */
  lemma {:induction false} ColumnIndexAt(header: seq<string>, col: string, i: nat)
    requires i < |header| && TrimSpace(header[i]) == col
    requires forall j :: i < j < |header| ==> TrimSpace(header[j]) != col
    ensures col in ColumnIndex(header) && ColumnIndex(header)[col] == i
    decreases |header|
  {
    var n := |header| - 1;
    if i < n {
      var init := header[..n];
      assert TrimSpace(header[n]) != col;
      assert forall j :: i < j < |init| ==> TrimSpace(init[j]) != col by {
        forall j | i < j < |init| ensures TrimSpace(init[j]) != col {
          assert init[j] == header[j];
        }
      }
      ColumnIndexAt(init, col, i);
    }
  }

  lemma GetValueOfMissingColumn(header: seq<string>, row: seq<string>, col: string)
    requires forall j :: 0 <= j < |header| ==> TrimSpace(header[j]) != col
    ensures GetValue(row, ColumnIndex(header), col) == ""
  {
    ColumnIndexIsLastColumn(header, col);
  }

  const Int64Min := -0x8000_0000_0000_0000
  const Int64Max := 0x7FFF_FFFF_FFFF_FFFF

  /** `strconv.Atoi` for a 64-bit int: an optional sign, then decimal digits, in range. */
  function Atoi(s: string): (r: Option<int>)
    ensures r.Some? ==> Int64Min <= r.value <= Int64Max
  {
    var signed := |s| > 0 && (s[0] == '+' || s[0] == '-');
    var digits := if signed then s[1..] else s;
    if |digits| == 0 || !AllDigits(digits) then None
    else
      var v: int := if signed && s[0] == '-' then -(DecimalValue(digits) as int) else DecimalValue(digits);
      if Int64Min <= v <= Int64Max then Some(v) else None
  }

  /** Reading back `%d` of an int in range gives it back. */
  lemma AtoiOfIntToString(n: int)
    requires Int64Min <= n <= Int64Max
    ensures Atoi(IntToString(n)) == Some(n)
  {
    if n < 0 {
      AtoiOfNegative(-n);
    } else {
      AtoiOfNat(n);
    }
  }

  lemma AtoiOfNat(m: nat)
    requires m <= Int64Max
    ensures Atoi(NatToString(m)) == Some(m)
  {
    var s := NatToString(m);
    DecimalOfNatToString(m);
    assert IsDigit(s[0]);
  }

  lemma AtoiOfNegative(m: nat)
    requires m <= -Int64Min
    ensures Atoi("-" + NatToString(m)) == Some(-(m as int))
  {
    var t := NatToString(m);
    var s := "-" + t;
    DecimalOfNatToString(m);
    assert s[0] == '-';
    assert s[1..] == t;
  }

  /** getInt: blank or unreadable text is absent, never an error. */
  function GetInt(row: seq<string>, colIndex: map<string, nat>, col: string): (r: Option<int>)
    ensures r.Some? <==> GetValue(row, colIndex, col) != "" && Atoi(GetValue(row, colIndex, col)).Some?
    ensures r.Some? ==> r == Atoi(GetValue(row, colIndex, col))
  {
    var val := GetValue(row, colIndex, col);
    if val == "" then None
    else
      match Atoi(val)
      case None => None
      case Some(n) => Some(n)
  }

  /** The boolean words getBool recognises, compared after lower-casing. */
  function ParseBool(val: string): (r: Option<bool>)
  {
    if val == "" then None
    else
      var lower := ToLower(val);
      if lower == "true" || lower == "yes" || lower == "1" then Some(true)
      else if lower == "false" || lower == "no" || lower == "0" then Some(false)
      else None
  }

  /** The words are recognised in any case: "TRUE", "Yes", "fAlSe" and "NO" all read. */
  lemma ParseBoolIgnoresCase(val: string)
    ensures ParseBool(val) == ParseBool(ToLower(val))
  {
    LowerHasNoUpper(val);
    LowerOfLower(ToLower(val));
  }

  /** The words Go prints for a bool read back as that bool. */
  lemma ParseBoolOfWord(b: bool)
    ensures ParseBool(if b then "true" else "false") == Some(b)
    ensures ParseBool(if b then "yes" else "no") == Some(b)
    ensures ParseBool(if b then "1" else "0") == Some(b)
  {
    assert ToLower("1") == "1" && ToLower("0") == "0";
  }

  /** Any other word is absent, never an error. */
  lemma ParseBoolOtherWords(val: string)
    requires ToLower(val) !in {"true", "yes", "1", "false", "no", "0"}
    ensures ParseBool(val).None?
  {
  }

  function GetBool(row: seq<string>, colIndex: map<string, nat>, col: string): Option<bool> {
    ParseBool(GetValue(row, colIndex, col))
  }

  /** parseSpecRow: the cells under the spec columns; section link and review flag stay unset. */
  function ParseSpecRow(row: seq<string>, colIndex: map<string, nat>): Spec {
    Spec(
      no := GetValue(row, colIndex, "No"),
      designItemName := GetValue(row, colIndex, "itemName"),
      name := GetValue(row, colIndex, "nameJP"),
      nameTrans := GetValue(row, colIndex, "nameTrans"),
      nodeLinkId := GetValue(row, colIndex, "itemId"),
      sectionLinkId := "",
      itemType := GetValue(row, colIndex, "itemType"),
      otherType := GetValue(row, colIndex, "itemSubtype"),
      buttonType := GetValue(row, colIndex, "buttonType"),
      dataType := GetValue(row, colIndex, "dataType"),
      required := GetBool(row, colIndex, "required"),
      format := GetValue(row, colIndex, "format"),
      minLength := GetInt(row, colIndex, "minLength"),
      maxLength := GetInt(row, colIndex, "maxLength"),
      defaultValue := GetValue(row, colIndex, "defaultValue"),
      validationNote := GetValue(row, colIndex, "validationNote"),
      action := GetValue(row, colIndex, "userAction"),
      linkedFrameId := GetValue(row, colIndex, "linkedFrameId"),
      navigationNote := GetValue(row, colIndex, "transitionNote"),
      tableName := GetValue(row, colIndex, "databaseTable"),
      columnName := GetValue(row, colIndex, "databaseColumn"),
      databaseNote := GetValue(row, colIndex, "databaseNote"),
      description := GetValue(row, colIndex, "description"),
      isReviewed := None)
  }

  /** Every text field of a parsed spec is trimmed, and the fields no column feeds are unset. */
  lemma ParsedSpecIsTrimmed(row: seq<string>, colIndex: map<string, nat>)
    ensures var s := ParseSpecRow(row, colIndex);
            && IsTrimmed(s.no) && IsTrimmed(s.designItemName) && IsTrimmed(s.name) && IsTrimmed(s.nameTrans)
            && IsTrimmed(s.nodeLinkId) && IsTrimmed(s.itemType) && IsTrimmed(s.otherType)
            && IsTrimmed(s.buttonType) && IsTrimmed(s.dataType) && IsTrimmed(s.format)
            && IsTrimmed(s.defaultValue) && IsTrimmed(s.validationNote) && IsTrimmed(s.action)
            && IsTrimmed(s.linkedFrameId) && IsTrimmed(s.navigationNote) && IsTrimmed(s.tableName)
            && IsTrimmed(s.columnName) && IsTrimmed(s.databaseNote) && IsTrimmed(s.description)
            && s.sectionLinkId == "" && s.isReviewed.None?
            && (s.minLength.Some? ==> Int64Min <= s.minLength.value <= Int64Max)
            && (s.maxLength.Some? ==> Int64Min <= s.maxLength.value <= Int64Max)
  {
    var columns := ["No", "itemName", "nameJP", "nameTrans", "itemId", "itemType", "itemSubtype",
                    "buttonType", "dataType", "format", "defaultValue", "validationNote", "userAction",
                    "linkedFrameId", "transitionNote", "databaseTable", "databaseColumn", "databaseNote",
                    "description"];
    forall c | c in columns
      ensures IsTrimmed(GetValue(row, colIndex, c))
    {
      GetValueIsTrimmed(row, colIndex, c);
    }
  }

  /** A row without any known cell parses to a spec without content. */
  lemma EmptyRowHasNoContent(colIndex: map<string, nat>)
    ensures UploadValidator.IsSpecContentEmpty(Some(ParseSpecRow([], colIndex)))
  {
  }

  /** Section values "functional" and "function", in any case, become "FUNCTION"; all else passes through. */
  function NormalizeTestArea(section: string): (r: string)
    ensures r == section || r == "FUNCTION"
  {
    if EqualFold(section, "functional") || EqualFold(section, "function") then "FUNCTION" else section
  }

  /** Normalising twice is normalising once. */
  lemma NormalizeTestAreaIdempotent(section: string)
    ensures NormalizeTestArea(NormalizeTestArea(section)) == NormalizeTestArea(section)
  {
    assert ToLower("FUNCTION") == "function";
  }

  /** Only the two words are rewritten: any other section text is kept as written. */
  lemma NormalizeTestAreaKeepsOthers(section: string)
    requires ToLower(section) != "functional" && ToLower(section) != "function"
    ensures NormalizeTestArea(section) == section
  {
    assert ToLower("functional") == "functional";
    assert ToLower("function") == "function";
  }

  lemma NormalizeTestAreaRewrites(section: string)
    requires ToLower(section) == "functional" || ToLower(section) == "function"
    ensures NormalizeTestArea(section) == "FUNCTION"
  {
    assert ToLower("functional") == "functional";
    assert ToLower("function") == "function";
  }

  /** parseTestcaseRow: the cells under the test-case columns, with the Section normalised. */
  function ParseTestcaseRow(row: seq<string>, colIndex: map<string, nat>): TestCase {
    TestCase(
      id := GetValue(row, colIndex, "TC_ID"),
      step := GetValue(row, colIndex, "Steps"),
      category := GetValue(row, colIndex, "Category"),
      pageName := GetValue(row, colIndex, "Page_Name"),
      testArea := NormalizeTestArea(GetValue(row, colIndex, "Section")),
      testData := GetValue(row, colIndex, "Test_Data"),
      subCategory := GetValue(row, colIndex, "Sub_Category"),
      subSubCategory := GetValue(row, colIndex, "Sub_Sub_Category"),
      preCondition := GetValue(row, colIndex, "Precondition"),
      expectedResult := GetValue(row, colIndex, "Expected_Result"),
      tcType := GetValue(row, colIndex, "Testcase_Type"),
      priority := GetValue(row, colIndex, "Priority"),
      testResults := GetValue(row, colIndex, "Test_Results"),
      executedDate := GetValue(row, colIndex, "Executed_Date"),
      tester := GetValue(row, colIndex, "Tester"),
      note := GetValue(row, colIndex, "Note"))
  }

  /** The specs of the data rows, one per row, in order. */
  function SpecRows(rows: seq<seq<string>>, colIndex: map<string, nat>): (r: seq<Spec>)
    ensures |r| == |rows|
  {
    if |rows| == 0 then [] else SpecRows(rows[..|rows| - 1], colIndex) + [ParseSpecRow(rows[|rows| - 1], colIndex)]
  }

  lemma {:induction false} SpecRowAt(rows: seq<seq<string>>, colIndex: map<string, nat>, k: nat)
    requires k < |rows|
    ensures SpecRows(rows, colIndex)[k] == ParseSpecRow(rows[k], colIndex)
  {
    if k < |rows| - 1 {
      SpecRowAt(rows[..|rows| - 1], colIndex, k);
    }
  }

  /** The test cases of the data rows, one per row, in order. */
  function TestcaseRows(rows: seq<seq<string>>, colIndex: map<string, nat>): (r: seq<TestCase>)
    ensures |r| == |rows|
  {
    if |rows| == 0 then [] else TestcaseRows(rows[..|rows| - 1], colIndex) + [ParseTestcaseRow(rows[|rows| - 1], colIndex)]
  }

  lemma {:induction false} TestcaseRowAt(rows: seq<seq<string>>, colIndex: map<string, nat>, k: nat)
    requires k < |rows|
    ensures TestcaseRows(rows, colIndex)[k] == ParseTestcaseRow(rows[k], colIndex)
  {
    if k < |rows| - 1 {
      TestcaseRowAt(rows[..|rows| - 1], colIndex, k);
    }
  }

  /** ParseSpecsCSV over the records: a header and at least one row, one spec per row in order. */
  method ParseSpecsCSV(records: seq<seq<string>>) returns (r: Result<seq<Spec>>)
    ensures |records| < 2 ==> r == Err(NoDataRows)
    ensures |records| >= 2 ==> r == Ok(SpecRows(records[1..], ColumnIndex(records[0])))
  {
    if |records| < 2 {
      return Err(NoDataRows);
    }
    var colIndex := BuildColumnIndex(records[0]);
    var rows := records[1..];
    var specs: seq<Spec> := [];
    for i := 0 to |rows|
      invariant specs == SpecRows(rows[..i], colIndex)
    {
      assert rows[..i + 1][..i] == rows[..i];
      specs := specs + [ParseSpecRow(rows[i], colIndex)];
    }
    assert rows[..|rows|] == rows;
    return Ok(specs);
  }

  /**
   * ParseTestcasesCSV over the records: the rows as for specs, then the file
   * path, whose frame name becomes the screen name.
   */
  method ParseTestcasesCSV(records: seq<seq<string>>, filePath: string) returns (r: Result<TestCaseContent>)
    ensures |records| < 2 ==> r == Err(NoDataRows)
    ensures |records| >= 2 && ParseFilePath(filePath).Err? ==> r == Err(ParseFilePath(filePath).error)
    ensures r.Ok? <==> |records| >= 2 && ParseFilePath(filePath).Ok?
    ensures r.Ok? ==>
              r.value == TestCaseContent(ParseFilePath(filePath).value.frameName,
                                         TestcaseRows(records[1..], ColumnIndex(records[0])))
  {
    if |records| < 2 {
      return Err(NoDataRows);
    }
    var colIndex := BuildColumnIndex(records[0]);
    var rows := records[1..];
    var testCases: seq<TestCase> := [];
    for i := 0 to |rows|
      invariant testCases == TestcaseRows(rows[..i], colIndex)
    {
      assert rows[..i + 1][..i] == rows[..i];
      testCases := testCases + [ParseTestcaseRow(rows[i], colIndex)];
    }
    assert rows[..|rows|] == rows;
    var parsed := ParseFilePath(filePath);
    if parsed.Err? {
      return Err(parsed.error);
    }
    return Ok(TestCaseContent(parsed.value.frameName, testCases));
  }

  // ------------------------------------------------------------ the payload

  /**
   * TransformSpecToPayload: the spec's content in nested groups, with each
   * type-dependent field left unset for the types it does not apply to.
   */
  function TransformSpecToPayload(spec: Spec, frameId: int, fileId: int, sectionLinkId: string, status: string): SpecPayload {
    var t := spec.itemType;
    var withValidation := !UploadValidator.Member(t, UploadValidator.TypesWithoutValidation);
    var withLength := UploadValidator.Member(t, UploadValidator.TypesRequiringLength);
    var details := SpecDetails(
      ItemSpec(spec.name, spec.nameTrans,
               if t == "button" then spec.buttonType else "",
               if t == "others" then spec.otherType else ""),
      NavigationSpec(spec.action, if spec.action != "" then spec.linkedFrameId else "", spec.navigationNote),
      ValidationSpec(
        if UploadValidator.Member(t, UploadValidator.TypesRequiringDataType) then spec.dataType else "",
        if withValidation then spec.required else None,
        if withValidation then spec.format else "",
        if withLength then spec.minLength else None,
        if withLength then spec.maxLength else None,
        spec.defaultValue, spec.validationNote),
      DatabaseSpec(if t != "button" then spec.tableName else "",
                   if t != "button" then spec.columnName else "",
                   spec.databaseNote),
      spec.description);
    SpecPayload(spec.itemType, spec.no, spec.designItemName, status, sectionLinkId,
                spec.nodeLinkId, frameId, fileId, spec.isReviewed, Some(details))
  }

  /** Which type-dependent fields reach the payload. */
  lemma PayloadSuppression(spec: Spec, frameId: int, fileId: int, sectionLinkId: string, status: string)
    ensures var d := TransformSpecToPayload(spec, frameId, fileId, sectionLinkId, status).specs.value;
            && (d.item.buttonType != "" <==> spec.itemType == "button" && spec.buttonType != "")
            && (d.item.otherType != "" <==> spec.itemType == "others" && spec.otherType != "")
            && (d.navigation.linkedFrameId != "" <==> spec.action != "" && spec.linkedFrameId != "")
            && (d.validation.dataType != ""
                <==> spec.itemType in ["textarea", "text_form", "others"] && spec.dataType != "")
            && (d.validation.required.Some?
                <==> spec.itemType !in ["button", "label"] && spec.required.Some?)
            && (d.validation.format != "" <==> spec.itemType !in ["button", "label"] && spec.format != "")
            && (d.validation.minLength.Some?
                <==> spec.itemType in ["textarea", "text_form", "file_or_image", "video", "others"]
                     && spec.minLength.Some?)
            && (d.validation.maxLength.Some?
                <==> spec.itemType in ["textarea", "text_form", "file_or_image", "video", "others"]
                     && spec.maxLength.Some?)
            && (d.database.tableName != "" <==> spec.itemType != "button" && spec.tableName != "")
            && (d.database.columnName != "" <==> spec.itemType != "button" && spec.columnName != "")
  {
    UploadValidator.MemberIsIn(spec.itemType, UploadValidator.TypesRequiringDataType);
    UploadValidator.MemberIsIn(spec.itemType, UploadValidator.TypesWithoutValidation);
    UploadValidator.MemberIsIn(spec.itemType, UploadValidator.TypesRequiringLength);
  }

  /** A kept field is the spec's own value; the untouched fields are copied as they are. */
  lemma PayloadCopies(spec: Spec, frameId: int, fileId: int, sectionLinkId: string, status: string)
    ensures var p := TransformSpecToPayload(spec, frameId, fileId, sectionLinkId, status);
            var d := p.specs.value;
            && p.itemType == spec.itemType && p.no == spec.no && p.name == spec.designItemName
            && p.status == status && p.sectionLinkId == sectionLinkId && p.nodeLinkId == spec.nodeLinkId
            && p.frameId == frameId && p.fileId == fileId && p.isReviewed == spec.isReviewed
            && d.item.name == spec.name && d.item.nameTrans == spec.nameTrans
            && d.navigation.action == spec.action && d.navigation.note == spec.navigationNote
            && d.validation.defaultValue == spec.defaultValue && d.validation.note == spec.validationNote
            && d.database.note == spec.databaseNote && d.description == spec.description
            && (d.item.buttonType != "" ==> d.item.buttonType == spec.buttonType)
            && (d.item.otherType != "" ==> d.item.otherType == spec.otherType)
            && (d.navigation.linkedFrameId != "" ==> d.navigation.linkedFrameId == spec.linkedFrameId)
            && (d.validation.dataType != "" ==> d.validation.dataType == spec.dataType)
            && (d.validation.required.Some? ==> d.validation.required == spec.required)
            && (d.validation.minLength.Some? ==> d.validation.minLength == spec.minLength)
            && (d.validation.maxLength.Some? ==> d.validation.maxLength == spec.maxLength)
  {
  }

  /** The flat spec a payload describes (its section link and status stay with the payload). */
  function SpecOfPayload(p: SpecPayload): Spec
    requires p.specs.Some?
  {
    var d := p.specs.value;
    Spec(p.no, p.name, d.item.name, d.item.nameTrans, p.nodeLinkId, p.sectionLinkId, p.itemType,
         d.item.otherType, d.item.buttonType, d.validation.dataType, d.validation.required,
         d.validation.format, d.validation.minLength, d.validation.maxLength, d.validation.defaultValue,
         d.validation.note, d.navigation.action, d.navigation.linkedFrameId, d.navigation.note,
         d.database.tableName, d.database.columnName, d.database.note, d.description, p.isReviewed)
  }

  /** Suppression is idempotent: shaping the spec a payload describes gives that payload again. */
  lemma TransformIdempotent(spec: Spec, frameId: int, fileId: int, sectionLinkId: string, status: string)
    ensures var p := TransformSpecToPayload(spec, frameId, fileId, sectionLinkId, status);
            TransformSpecToPayload(SpecOfPayload(p), frameId, fileId, sectionLinkId, status) == p
  {
  }
}
