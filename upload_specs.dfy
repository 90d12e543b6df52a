/**
 * The `upload specs` command: what uploading one spec file does, as the
 * outcome and the ordered API calls it makes, and the loop over the files.
 * Each response the API gives is an input: the file's `SpecWorld`.
 */
module UploadSpecs {
  import opened Wrappers
  import opened GoStrings
  import opened UploadTypes
  import opened UploadParser
  import opened RemoteTypes
  import opened UploadLoop

  /**
   * What the outside world answers while one spec file is uploaded: the CSV
   * reader's records (or the open/read error, already worded), the responses
   * of GetFrame, ListDesignItemsByNodeLinkIds, UpsertDesignItemSpecs and
   * GetMorpheusUserByEmail (a user of None is Go's nil user), and the section
   * link ID and status handed to TransformSpecToPayload.
   */
  datatype SpecWorld = SpecWorld(
    csv: Result<seq<seq<string>>>,
    frame: Result<Frame>,
    existingItems: Result<seq<DesignItem>>,
    savedItems: Result<seq<DesignItem>>,
    user: Result<Option<MorpheusUser>>,
    sectionLinkId: string,
    payloadStatus: string)

  /** ParseSpecsCSV on the file's records. */
  function SpecsOfFile(csv: Result<seq<seq<string>>>): Result<seq<Spec>> {
    match csv
    case Err(e) => Err(e)
    case Ok(records) =>
      if |records| < 2 then Err(NoDataRows) else Ok(SpecRows(records[1..], ColumnIndex(records[0])))
  }

  /** Every data row is a spec, so a parsed file never holds none. */
  lemma ParsedSpecFileIsNeverEmpty(csv: Result<seq<seq<string>>>)
    requires SpecsOfFile(csv).Ok?
    ensures |SpecsOfFile(csv).value| == |csv.value| - 1 > 0
  {
  }

  // ------------------------------------------------------------ the loops of uploadSingleSpecFile

  /** The non-empty node link IDs of the specs, in file order. */
  function NodeLinkIds(specs: seq<Spec>): seq<string>
    decreases |specs|
  {
    if |specs| == 0 then []
    else
      var id := specs[|specs| - 1].nodeLinkId;
      NodeLinkIds(specs[..|specs| - 1]) + (if id != "" then [id] else [])
  }

  /** An ID is queried exactly when some spec carries it and it is not empty. */
  lemma {:induction false} NodeLinkIdsAreTheNonEmptyOnes(specs: seq<Spec>, id: string)
    ensures id in NodeLinkIds(specs) <==> id != "" && exists k :: 0 <= k < |specs| && specs[k].nodeLinkId == id
    decreases |specs|
  {
    if |specs| > 0 {
      var n := |specs| - 1;
      NodeLinkIdsAreTheNonEmptyOnes(specs[..n], id);
      if id != "" && specs[n].nodeLinkId != id && exists k :: 0 <= k < |specs| && specs[k].nodeLinkId == id {
        var k :| 0 <= k < |specs| && specs[k].nodeLinkId == id;
        assert specs[..n][k] == specs[k];
      }
    }
  }

  method CollectNodeLinkIds(specs: seq<Spec>) returns (ids: seq<string>)
    ensures ids == NodeLinkIds(specs)
  {
    ids := [];
    for i := 0 to |specs|
      invariant ids == NodeLinkIds(specs[..i])
    {
      assert specs[..i + 1][..i] == specs[..i];
      if specs[i].nodeLinkId != "" {
        ids := ids + [specs[i].nodeLinkId];
      }
    }
    assert specs[..|specs|] == specs;
  }

  /** The existing items keyed by node link ID; a later item overwrites an earlier one. */
  function ExistingMap(items: seq<DesignItem>): map<string, DesignItem>
    decreases |items|
  {
    if |items| == 0 then map[]
    else
      var last := items[|items| - 1];
      ExistingMap(items[..|items| - 1])[last.nodeLinkId := last]
  }

  /** The keys are the items' node link IDs. */
  lemma {:induction false} ExistingMapKeys(items: seq<DesignItem>, id: string)
    ensures id in ExistingMap(items) <==> exists k :: 0 <= k < |items| && items[k].nodeLinkId == id
    decreases |items|
  {
    if |items| > 0 {
      var n := |items| - 1;
      ExistingMapKeys(items[..n], id);
      if items[n].nodeLinkId != id && exists k :: 0 <= k < |items| && items[k].nodeLinkId == id {
        var k :| 0 <= k < |items| && items[k].nodeLinkId == id;
        assert items[..n][k] == items[k];
      }
    }
  }

  /** The last item with a given node link ID is the one kept. */
  lemma {:induction false} ExistingMapKeepsLast(items: seq<DesignItem>, k: nat)
    requires k < |items|
    requires forall j :: k < j < |items| ==> items[j].nodeLinkId != items[k].nodeLinkId
    ensures items[k].nodeLinkId in ExistingMap(items) && ExistingMap(items)[items[k].nodeLinkId] == items[k]
    decreases |items|
  {
    var n := |items| - 1;
    if k < n {
      var init := items[..n];
      assert items[n].nodeLinkId != items[k].nodeLinkId;
      assert forall j :: k < j < |init| ==> init[j].nodeLinkId != init[k].nodeLinkId by {
        forall j | k < j < |init| ensures init[j].nodeLinkId != init[k].nodeLinkId {
          assert init[j] == items[j];
        }
      }
      ExistingMapKeepsLast(init, k);
    }
  }

  method BuildExistingMap(items: seq<DesignItem>) returns (existingMap: map<string, DesignItem>)
    ensures existingMap == ExistingMap(items)
  {
    existingMap := map[];
    for i := 0 to |items|
      invariant existingMap == ExistingMap(items[..i])
    {
      assert items[..i + 1][..i] == items[..i];
      existingMap := existingMap[items[i].nodeLinkId := items[i]];
    }
    assert items[..|items|] == items;
  }

  /** The upsert entry of a payload: always written with status "draft". */
  function ItemOf(p: SpecPayload): UpsertItem {
    UpsertItem(p.no, p.name, p.itemType, p.nodeLinkId, p.sectionLinkId, p.frameId, p.fileId, StatusDraft, p.specs)
  }

  function PayloadOf(spec: Spec, frame: Frame, w: SpecWorld): SpecPayload {
    TransformSpecToPayload(spec, frame.id, frame.fileId, w.sectionLinkId, w.payloadStatus)
  }

  /** One upsert entry per spec, in file order. */
  function UpsertItems(specs: seq<Spec>, frame: Frame, w: SpecWorld): (r: seq<UpsertItem>)
    ensures |r| == |specs|
    decreases |specs|
  {
    if |specs| == 0 then []
    else UpsertItems(specs[..|specs| - 1], frame, w) + [ItemOf(PayloadOf(specs[|specs| - 1], frame, w))]
  }

  /** The k-th upsert entry is spec k's payload, named by its design item name, with status "draft". */
  lemma {:induction false} UpsertItemAt(specs: seq<Spec>, frame: Frame, w: SpecWorld, k: nat)
    requires k < |specs|
    ensures var item := UpsertItems(specs, frame, w)[k];
            && item == ItemOf(PayloadOf(specs[k], frame, w))
            && item.status == StatusDraft && item.name == specs[k].designItemName
            && item.nodeLinkId == specs[k].nodeLinkId && item.no == specs[k].no
            && item.frameId == frame.id && item.fileId == frame.fileId
    decreases |specs|
  {
    var n := |specs| - 1;
    if k < n {
      UpsertItemAt(specs[..n], frame, w, k);
      assert specs[..n][k] == specs[k];
    }
  }

  method BuildUpsertItems(specs: seq<Spec>, frame: Frame, w: SpecWorld) returns (items: seq<UpsertItem>)
    ensures items == UpsertItems(specs, frame, w)
  {
    items := [];
    for i := 0 to |specs|
      invariant items == UpsertItems(specs[..i], frame, w)
    {
      assert specs[..i + 1][..i] == specs[..i];
      var payload := TransformSpecToPayload(specs[i], frame.id, frame.fileId, w.sectionLinkId, w.payloadStatus);
      var item := UpsertItem(payload.no, payload.name, payload.itemType, payload.nodeLinkId,
                             payload.sectionLinkId, payload.frameId, payload.fileId, StatusDraft, None);
      if payload.specs.Some? {
        item := item.(specs := payload.specs);
      }
      items := items + [item];
    }
    assert specs[..|specs|] == specs;
  }

  function RevisionOf(item: DesignItem, userId: int): Revision {
    Revision(item.id, item.status, item.specs, item.itemType, "user", item.name, userId)
  }

  /** The revisions of the saved items that existed before the upsert, in order. */
  function Revisions(saved: seq<DesignItem>, existingMap: map<string, DesignItem>, userId: int): seq<Revision>
    decreases |saved|
  {
    if |saved| == 0 then []
    else
      var item := saved[|saved| - 1];
      Revisions(saved[..|saved| - 1], existingMap, userId)
      + (if item.nodeLinkId in existingMap then [RevisionOf(item, userId)] else [])
  }

  /** A revision is made exactly for each saved item whose node link ID was already known. */
  lemma {:induction false} RevisionsAreForExistingItems(saved: seq<DesignItem>, existingMap: map<string, DesignItem>,
                                                        userId: int, rev: Revision)
    ensures rev in Revisions(saved, existingMap, userId) <==>
            exists k :: 0 <= k < |saved| && saved[k].nodeLinkId in existingMap && rev == RevisionOf(saved[k], userId)
    decreases |saved|
  {
    if |saved| > 0 {
      var n := |saved| - 1;
      RevisionsAreForExistingItems(saved[..n], existingMap, userId, rev);
      if exists k :: 0 <= k < |saved| && saved[k].nodeLinkId in existingMap && rev == RevisionOf(saved[k], userId) {
        var k :| 0 <= k < |saved| && saved[k].nodeLinkId in existingMap && rev == RevisionOf(saved[k], userId);
        if k < n {
          assert saved[..n][k] == saved[k];
        }
      }
    }
  }

  method BuildRevisions(saved: seq<DesignItem>, existingMap: map<string, DesignItem>, userId: int)
    returns (revs: seq<Revision>)
    ensures revs == Revisions(saved, existingMap, userId)
  {
    revs := [];
    for i := 0 to |saved|
      invariant revs == Revisions(saved[..i], existingMap, userId)
    {
      assert saved[..i + 1][..i] == saved[..i];
      var item := saved[i];
      if item.nodeLinkId in existingMap {
        revs := revs + [Revision(item.id, item.status, item.specs, item.itemType, "user", item.name, userId)];
      }
    }
    assert saved[..|saved|] == saved;
  }

  // ------------------------------------------------------------ uploadSingleSpecFile

  function Outcome(filePath: string, status: string, err: Option<string>, message: string,
                   calls: seq<RemoteCall>): FileOutcome {
    FileOutcome(UploadResult(filePath, Base(filePath), status, err, message), calls)
  }

  /** The revision step: with an actor, look the user up, and insert the revisions if there are any. */
  function RevisionCalls(actor: string, user: Result<Option<MorpheusUser>>, saved: seq<DesignItem>,
                         existingMap: map<string, DesignItem>): seq<RemoteCall> {
    if actor == "" then []
    else
      [GetMorpheusUserByEmail(actor)]
      + match user
        case Ok(Some(u)) =>
          var revs := Revisions(saved, existingMap, u.id);
          if |revs| > 0 then [InsertDesignItemRevs(revs)] else []
        case _ => []
  }

  /** The upsert of `items` and what follows it; the revision step never changes the result. */
  function UpsertAndRevise(filePath: string, items: seq<UpsertItem>,
                           existingMap: map<string, DesignItem>, actor: string, w: SpecWorld): FileOutcome {
    var upsert := UpsertDesignItemSpecs(items);
    match w.savedItems
    case Err(e) => Outcome(filePath, Failed, Some(e), "Failed to upsert specs: " + e, [upsert])
    case Ok(saved) =>
      Outcome(filePath, Success, None, "Uploaded " + IntToString(|saved|) + " specs",
              [upsert] + RevisionCalls(actor, w.user, saved, existingMap))
  }

  /** From the frame lookup on, for parsed specs. */
  function UploadToFrame(filePath: string, parsed: ParsedFilePath, specs: seq<Spec>,
                         actor: string, w: SpecWorld): FileOutcome {
    var lookup := GetFrame(parsed.fileKey, parsed.frameId);
    match w.frame
    case Err(e) => Outcome(filePath, Failed, Some(e), "Frame not found: " + e, [lookup])
    case Ok(frame) =>
      if frame.status == "design" then
        Outcome(filePath, Failed, None, "Cannot upload specs to frame in 'design' status", [lookup])
      else
        var rest := UploadToOpenFrame(filePath, parsed, specs, frame, actor, w);
        FileOutcome(rest.result, [lookup] + rest.calls)
  }

  /** From the query for existing items on, once the frame is known to accept specs. */
  function UploadToOpenFrame(filePath: string, parsed: ParsedFilePath, specs: seq<Spec>, frame: Frame,
                             actor: string, w: SpecWorld): FileOutcome {
    var ids := NodeLinkIds(specs);
    var query := if |ids| > 0 then [ListDesignItemsByNodeLinkIds(parsed.fileKey, parsed.frameId, ids)] else [];
    var existing := if |ids| > 0 && w.existingItems.Ok? then w.existingItems.value else [];
    var rest := UpsertAndRevise(filePath, UpsertItems(specs, frame, w), ExistingMap(existing), actor, w);
    FileOutcome(rest.result, query + rest.calls)
  }

  /** What uploading one spec file produces. */
  function SpecFileUpload(filePath: string, actor: string, w: SpecWorld): FileOutcome {
    match ParseFilePath(filePath)
    case Err(e) => Outcome(filePath, Skipped, Some(e), "Invalid file path format", [])
    case Ok(parsed) => UploadSpecRecords(filePath, parsed, actor, w)
  }

  /** From the CSV parse on, once the path is known to match. */
  function UploadSpecRecords(filePath: string, parsed: ParsedFilePath, actor: string, w: SpecWorld): FileOutcome {
    match SpecsOfFile(w.csv)
    case Err(e) => Outcome(filePath, Failed, Some(e), "Failed to parse CSV: " + e, [])
    case Ok(specs) =>
      if |specs| == 0 then Outcome(filePath, Skipped, None, "CSV file contains no specs", [])
      else UploadToFrame(filePath, parsed, specs, actor, w)
  }

  /** uploadSingleSpecFile: the steps in order, each remote response taken from `w`. */
  method UploadSingleSpecFile(filePath: string, actor: string, w: SpecWorld) returns (o: FileOutcome)
    ensures o == SpecFileUpload(filePath, actor, w)
  {
    var parsedPath := ParseFilePath(filePath);
    if parsedPath.Err? {
      return FileOutcome(UploadResult(filePath, Base(filePath), Skipped, Some(parsedPath.error), "Invalid file path format"), []);
    }
    o := UploadSpecFileRecords(filePath, parsedPath.value, actor, w);
  }

  /** The part of uploadSingleSpecFile after the path check. */
  method UploadSpecFileRecords(filePath: string, parsed: ParsedFilePath, actor: string, w: SpecWorld)
    returns (o: FileOutcome)
    ensures o == UploadSpecRecords(filePath, parsed, actor, w)
  {
    var fileName := Base(filePath);
    var specsResult := ReadSpecs(w.csv);
    if specsResult.Err? {
      var e := specsResult.error;
      return FileOutcome(UploadResult(filePath, fileName, Failed, Some(e), "Failed to parse CSV: " + e), []);
    }
    var specs := specsResult.value;
    if |specs| == 0 {
      return FileOutcome(UploadResult(filePath, fileName, Skipped, None, "CSV file contains no specs"), []);
    }
    o := UploadParsedSpecs(filePath, parsed, specs, actor, w);
  }

  /** Reading the file: the reader's error, or ParseSpecsCSV on its records. */
  method ReadSpecs(csv: Result<seq<seq<string>>>) returns (r: Result<seq<Spec>>)
    ensures r == SpecsOfFile(csv)
  {
    if csv.Err? {
      return Err(csv.error);
    }
    r := ParseSpecsCSV(csv.value);
  }

  /** The part of uploadSingleSpecFile after parsing, from the frame lookup on. */
  method UploadParsedSpecs(filePath: string, parsed: ParsedFilePath, specs: seq<Spec>, actor: string, w: SpecWorld)
    returns (o: FileOutcome)
    ensures o == UploadToFrame(filePath, parsed, specs, actor, w)
  {
    var fileName := Base(filePath);
    var calls := [GetFrame(parsed.fileKey, parsed.frameId)];
    if w.frame.Err? {
      var e := w.frame.error;
      return FileOutcome(UploadResult(filePath, fileName, Failed, Some(e), "Frame not found: " + e), calls);
    }
    var frame := w.frame.value;
    if frame.status == "design" {
      return FileOutcome(UploadResult(filePath, fileName, Failed, None, "Cannot upload specs to frame in 'design' status"), calls);
    }
    var rest := UploadToFrameInUse(filePath, parsed, specs, frame, actor, w);
    o := FileOutcome(rest.result, calls + rest.calls);
  }

  /** The part of uploadSingleSpecFile after the frame checks. */
  method UploadToFrameInUse(filePath: string, parsed: ParsedFilePath, specs: seq<Spec>, frame: Frame,
                            actor: string, w: SpecWorld) returns (o: FileOutcome)
    ensures o == UploadToOpenFrame(filePath, parsed, specs, frame, actor, w)
  {
    var nodeLinkIds := CollectNodeLinkIds(specs);
    var calls := [];
    var existingItems: seq<DesignItem> := [];
    if |nodeLinkIds| > 0 {
      calls := [ListDesignItemsByNodeLinkIds(parsed.fileKey, parsed.frameId, nodeLinkIds)];
      if w.existingItems.Ok? {
        existingItems := w.existingItems.value;
      }
    }
    var existingMap := BuildExistingMap(existingItems);
    var items := BuildUpsertItems(specs, frame, w);
    var rest := UpsertAndReviseSpecs(filePath, items, existingMap, actor, w);
    o := FileOutcome(rest.result, calls + rest.calls);
  }

  /** The upsert of uploadSingleSpecFile and the revision step after it. */
  method UpsertAndReviseSpecs(filePath: string, items: seq<UpsertItem>,
                              existingMap: map<string, DesignItem>, actor: string, w: SpecWorld)
    returns (o: FileOutcome)
    ensures o == UpsertAndRevise(filePath, items, existingMap, actor, w)
  {
    var fileName := Base(filePath);
    var calls := [UpsertDesignItemSpecs(items)];
    if w.savedItems.Err? {
      var e := w.savedItems.error;
      return FileOutcome(UploadResult(filePath, fileName, Failed, Some(e), "Failed to upsert specs: " + e), calls);
    }
    var savedItems := w.savedItems.value;
    var revisionCalls := CreateRevisions(actor, w.user, savedItems, existingMap);
    o := FileOutcome(UploadResult(filePath, fileName, Success, None, "Uploaded " + IntToString(|savedItems|) + " specs"),
                     calls + revisionCalls);
  }

  /** The revision step of uploadSingleSpecFile, as the calls it makes. */
  method CreateRevisions(actor: string, user: Result<Option<MorpheusUser>>, savedItems: seq<DesignItem>,
                         existingMap: map<string, DesignItem>) returns (calls: seq<RemoteCall>)
    ensures calls == RevisionCalls(actor, user, savedItems, existingMap)
  {
    calls := [];
    if actor != "" {
      calls := [GetMorpheusUserByEmail(actor)];
      if user.Ok? && user.value.Some? {
        var revs := BuildRevisions(savedItems, existingMap, user.value.value.id);
        if |revs| > 0 {
          calls := calls + [InsertDesignItemRevs(revs)];
        }
      }
    }
  }

  // ------------------------------------------------------------ properties of one spec file's upload

  /** The file gets past the path and CSV checks: its path matches and it holds at least one spec. */
  predicate ReachesFrame(filePath: string, w: SpecWorld) {
    ParseFilePath(filePath).Ok? && SpecsOfFile(w.csv).Ok? && |SpecsOfFile(w.csv).value| > 0
  }

  /** GetFrame found a frame that is not in "design" status. */
  predicate FrameAccepts(w: SpecWorld) {
    w.frame.Ok? && w.frame.value.status != "design"
  }

  /** No API call is made for a file that fails the path or CSV checks, and one is made for every other file. */
  lemma NoCallsBeforeTheFrameLookup(filePath: string, actor: string, w: SpecWorld)
    ensures SpecFileUpload(filePath, actor, w).calls == [] <==> !ReachesFrame(filePath, w)
    ensures !ReachesFrame(filePath, w) ==> SpecFileUpload(filePath, actor, w).result.status in {Skipped, Failed}
  {
  }

  /** The first call is the frame lookup, by the file key and frame ID of the path. */
  lemma FirstCallIsTheFrameLookup(filePath: string, actor: string, w: SpecWorld)
    requires ReachesFrame(filePath, w)
    ensures var parsed := ParseFilePath(filePath).value;
            SpecFileUpload(filePath, actor, w).calls[0] == GetFrame(parsed.fileKey, parsed.frameId)
  {
  }

  /** A missing frame or one in "design" status fails the file after the lookup alone: nothing is written. */
  lemma RefusedFrameWritesNothing(filePath: string, actor: string, w: SpecWorld)
    requires ReachesFrame(filePath, w) && !FrameAccepts(w)
    ensures var o := SpecFileUpload(filePath, actor, w);
            var parsed := ParseFilePath(filePath).value;
            o.result.status == Failed && o.calls == [GetFrame(parsed.fileKey, parsed.frameId)]
  {
  }

  /** Past the frame checks, the query for existing items is made exactly when some spec has a node link ID. */
  lemma {:induction false} QueryOnlyForNodeLinkIds(filePath: string, parsed: ParsedFilePath, specs: seq<Spec>,
                                                   frame: Frame, actor: string, w: SpecWorld)
    ensures var calls := UploadToOpenFrame(filePath, parsed, specs, frame, actor, w).calls;
            calls[0].ListDesignItemsByNodeLinkIds? <==> exists k :: 0 <= k < |specs| && specs[k].nodeLinkId != ""
  {
    var ids := NodeLinkIds(specs);
    if exists k :: 0 <= k < |specs| && specs[k].nodeLinkId != "" {
      var k :| 0 <= k < |specs| && specs[k].nodeLinkId != "";
      NodeLinkIdsAreTheNonEmptyOnes(specs, specs[k].nodeLinkId);
    } else if |ids| > 0 {
      NodeLinkIdsAreTheNonEmptyOnes(specs, ids[0]);
    }
  }

  /** The upsert entries depend on the world only through the section link ID and status handed to the payload. */
  lemma {:induction false} UpsertItemsIgnoreTheRest(specs: seq<Spec>, frame: Frame, w1: SpecWorld, w2: SpecWorld)
    requires w1.sectionLinkId == w2.sectionLinkId && w1.payloadStatus == w2.payloadStatus
    ensures UpsertItems(specs, frame, w1) == UpsertItems(specs, frame, w2)
    decreases |specs|
  {
    if |specs| > 0 {
      UpsertItemsIgnoreTheRest(specs[..|specs| - 1], frame, w1, w2);
    }
  }

  lemma QueryErrorAtOpenFrame(filePath: string, parsed: ParsedFilePath, specs: seq<Spec>, frame: Frame,
                              actor: string, w: SpecWorld, e: string)
    ensures UploadToOpenFrame(filePath, parsed, specs, frame, actor, w.(existingItems := Err(e)))
         == UploadToOpenFrame(filePath, parsed, specs, frame, actor, w.(existingItems := Ok([])))
  {
    UpsertItemsIgnoreTheRest(specs, frame, w.(existingItems := Err(e)), w.(existingItems := Ok([])));
  }

  lemma QueryErrorAtFrame(filePath: string, parsed: ParsedFilePath, specs: seq<Spec>, actor: string, w: SpecWorld, e: string)
    ensures UploadToFrame(filePath, parsed, specs, actor, w.(existingItems := Err(e)))
         == UploadToFrame(filePath, parsed, specs, actor, w.(existingItems := Ok([])))
  {
    if w.frame.Ok? {
      QueryErrorAtOpenFrame(filePath, parsed, specs, w.frame.value, actor, w, e);
    }
  }

  /** A failed query for existing items is treated as finding none. */
  lemma QueryErrorIsNoExistingItems(filePath: string, actor: string, w: SpecWorld, e: string)
    ensures SpecFileUpload(filePath, actor, w.(existingItems := Err(e)))
         == SpecFileUpload(filePath, actor, w.(existingItems := Ok([])))
  {
    if ParseFilePath(filePath).Ok? && SpecsOfFile(w.csv).Ok? {
      QueryErrorAtFrame(filePath, ParseFilePath(filePath).value, SpecsOfFile(w.csv).value, actor, w, e);
    }
  }

  /** Past the frame checks, the upsert sends one item per spec, right after the lookup and the optional query. */
  lemma UpsertSendsEverySpec(filePath: string, actor: string, w: SpecWorld)
    requires ReachesFrame(filePath, w) && FrameAccepts(w)
    ensures var o := SpecFileUpload(filePath, actor, w);
            var specs := SpecsOfFile(w.csv).value;
            var items := UpsertItems(specs, w.frame.value, w);
            var q := if |NodeLinkIds(specs)| > 0 then 1 else 0;
            |o.calls| > q + 1 && o.calls[q + 1] == UpsertDesignItemSpecs(items) && |items| == |specs|
  {
  }

  /** A file succeeds exactly when it reaches an accepting frame and the upsert succeeds; the message counts the saved items. */
  lemma SuccessIffSaved(filePath: string, actor: string, w: SpecWorld)
    ensures var r := SpecFileUpload(filePath, actor, w).result;
            && (r.status == Success <==> ReachesFrame(filePath, w) && FrameAccepts(w) && w.savedItems.Ok?)
            && (r.status == Success ==> r.message == "Uploaded " + IntToString(|w.savedItems.value|) + " specs"
                                        && r.error.None?)
  {
  }

  /** The result of the upsert step names the file and depends only on the upsert's response. */
  lemma ResultAfterTheFrame(filePath: string, parsed: ParsedFilePath, specs: seq<Spec>, frame: Frame,
                            a1: string, a2: string, w1: SpecWorld, w2: SpecWorld)
    requires w1.savedItems == w2.savedItems
    ensures var r := UploadToOpenFrame(filePath, parsed, specs, frame, a1, w1).result;
            && r == UploadToOpenFrame(filePath, parsed, specs, frame, a2, w2).result
            && r.filePath == filePath && r.fileName == Base(filePath) && r.status != Skipped
  {
  }

  lemma ResultAtTheFrame(filePath: string, parsed: ParsedFilePath, specs: seq<Spec>,
                         a1: string, a2: string, w1: SpecWorld, w2: SpecWorld)
    requires w1.frame == w2.frame && w1.savedItems == w2.savedItems
    ensures var r := UploadToFrame(filePath, parsed, specs, a1, w1).result;
            && r == UploadToFrame(filePath, parsed, specs, a2, w2).result
            && r.filePath == filePath && r.fileName == Base(filePath) && r.status != Skipped
  {
    if w1.frame.Ok? {
      ResultAfterTheFrame(filePath, parsed, specs, w1.frame.value, a1, a2, w1, w2);
    }
  }

  /**
   * The result names the file by its path and base name, and depends only on
   * the path, the CSV and the responses of GetFrame and the upsert: not on the
   * actor, the user lookup, the existing items or the payload inputs.
   */
  lemma ResultDependsOnlyOnPathCsvFrameAndUpsert(filePath: string, a1: string, a2: string, w1: SpecWorld, w2: SpecWorld)
    requires w1.csv == w2.csv && w1.frame == w2.frame && w1.savedItems == w2.savedItems
    ensures var r := SpecFileUpload(filePath, a1, w1).result;
            && r == SpecFileUpload(filePath, a2, w2).result
            && r.filePath == filePath && r.fileName == Base(filePath)
  {
    if ParseFilePath(filePath).Ok? && SpecsOfFile(w1.csv).Ok? {
      ResultAtTheFrame(filePath, ParseFilePath(filePath).value, SpecsOfFile(w1.csv).value, a1, a2, w1, w2);
    }
  }

  /**
   * A file is skipped only for its path: the "no specs" outcome is never
   * reached, since a parsed file holds a spec per data row.
   */
  lemma SpecSkippedOnlyForThePath(filePath: string, actor: string, w: SpecWorld)
    ensures SpecFileUpload(filePath, actor, w).result.status == Skipped <==> ParseFilePath(filePath).Err?
  {
    if ParseFilePath(filePath).Ok? && SpecsOfFile(w.csv).Ok? {
      ParsedSpecFileIsNeverEmpty(w.csv);
      ResultAtTheFrame(filePath, ParseFilePath(filePath).value, SpecsOfFile(w.csv).value, actor, actor, w, w);
    }
  }

  /** The revision step never changes the result: not the actor, not the user lookup. */
  lemma RevisionsDoNotChangeTheResult(filePath: string, actor: string, w: SpecWorld, user: Result<Option<MorpheusUser>>)
    ensures SpecFileUpload(filePath, actor, w).result == SpecFileUpload(filePath, "", w.(user := user)).result
  {
    ResultDependsOnlyOnPathCsvFrameAndUpsert(filePath, actor, "", w, w.(user := user));
  }

  /** Without an actor no revision call is made. */
  lemma {:induction false} NoActorNoRevisions(saved: seq<DesignItem>, existingMap: map<string, DesignItem>,
                                             user: Result<Option<MorpheusUser>>)
    ensures RevisionCalls("", user, saved, existingMap) == []
  {
  }

  /**
   * With an actor the user is looked up by it, and revisions are inserted
   * exactly when the user was found and some saved item existed before.
   */
  lemma {:induction false} RevisionsNeedUserAndExistingItems(actor: string, user: Result<Option<MorpheusUser>>,
                                                             saved: seq<DesignItem>, existingMap: map<string, DesignItem>)
    requires actor != ""
    ensures var calls := RevisionCalls(actor, user, saved, existingMap);
            && calls[0] == GetMorpheusUserByEmail(actor)
            && (|calls| == 2 <==> user.Ok? && user.value.Some? &&
                                  exists k :: 0 <= k < |saved| && saved[k].nodeLinkId in existingMap)
            && |calls| <= 2
  {
    if user.Ok? && user.value.Some? {
      var revs := Revisions(saved, existingMap, user.value.value.id);
      if exists k :: 0 <= k < |saved| && saved[k].nodeLinkId in existingMap {
        var k :| 0 <= k < |saved| && saved[k].nodeLinkId in existingMap;
        RevisionsAreForExistingItems(saved, existingMap, user.value.value.id, RevisionOf(saved[k], user.value.value.id));
      } else if |revs| > 0 {
        RevisionsAreForExistingItems(saved, existingMap, user.value.value.id, revs[0]);
      }
    }
  }

  // ------------------------------------------------------------ uploadSpecFiles

  /** The per-file upload of a run: file `i` meets `worlds(i)`. */
  function SpecUploader(actor: string, worlds: nat -> SpecWorld): (nat, string) -> FileOutcome {
    (i: nat, f: string) => SpecFileUpload(f, actor, worlds(i))
  }

  /** uploadSpecFiles. */
  method UploadSpecFiles(files: seq<string>, actor: string, continueOnError: bool,
                         cancelled: nat -> bool, worlds: nat -> SpecWorld)
    returns (results: seq<UploadResult>, calls: seq<RemoteCall>)
    ensures Run(results, calls) == RunFrom(files, 0, continueOnError, cancelled, SpecUploader(actor, worlds))
  {
    results, calls := UploadFiles(files, continueOnError, cancelled, SpecUploader(actor, worlds));
  }
}
