/**
 * The records the upload commands exchange with the MoMorph GraphQL API, and
 * the remote calls a run makes. A call's response is never computed here: it
 * is an input of the model, given with the file being uploaded.
 */
module RemoteTypes {
  import opened Wrappers
  import opened UploadTypes

  datatype Frame = Frame(id: int, frameLinkId: string, fileId: int, name: string, status: string)

  /** A stored design item; its `specs` JSON is kept as raw text. */
  datatype DesignItem = DesignItem(
    id: int, no: string, name: string, itemType: string, nodeLinkId: string,
    sectionLinkId: string, frameId: int, status: string, specs: string, isReviewed: bool)

  datatype MorpheusUser = MorpheusUser(id: int, email: string)

  datatype FrameTestCase = FrameTestCase(id: int, testcasableId: int, status: string)

  /** One element of the upsert request. */
  datatype UpsertItem = UpsertItem(
    no: string, name: string, itemType: string, nodeLinkId: string, sectionLinkId: string,
    frameId: int, fileId: int, status: string, specs: Option<SpecDetails>)

  /** One design-item revision entry. */
  datatype Revision = Revision(
    designItemId: int, status: string, specs: string, itemType: string,
    changeType: string, name: string, userId: int)

  /** A request sent to the API, with its arguments. */
  datatype RemoteCall =
    | GetFrame(fileKey: string, frameId: string)
    | ListDesignItemsByNodeLinkIds(fileKey: string, frameId: string, nodeLinkIds: seq<string>)
    | UpsertDesignItemSpecs(items: seq<UpsertItem>)
    | GetMorpheusUserByEmail(email: string)
    | InsertDesignItemRevs(revs: seq<Revision>)
    | GetFrameTestCases(fileKey: string, frameId: string)
    | UpdateFrameTestcase(testCaseId: int, content: TestCaseContent)
    | InsertFrameTestcase(frameDbId: int, content: TestCaseContent)

  /** What uploading one file produced: its result and the calls it made, in order. */
  datatype FileOutcome = FileOutcome(result: UploadResult, calls: seq<RemoteCall>)
}
