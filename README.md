# MoMorph CLI — a verified model of its core logic

The MoMorph CLI uploads design specifications and test cases, each kept as a CSV
file under `.momorph/{specs|testcases}/{fileKey}/{frameId}-{frameName}.csv`, to
the MoMorph service. It also keeps the configuration of AI coding tools up to
date, caches downloaded templates, and checks for new releases.

This project models in Dafny the logic at the heart of these features:

- **The upload pipeline**:
  - the spec rule table and status decision;
  - CSV record mapping and payload shaping;
  - file resolution and validation;
  - the per-file orchestration of both upload commands, with every remote call's answer taken as an input;
  - the loop over the files;
  - the upload summary.
- **Template handling**:
  - the deep merge of JSON settings;
  - the `.gitignore` merge;
  - the in-place edits of the MCP configuration of Claude, Cursor and Windsurf;
  - the template cache index.
- **Small utilities**:
  - release version comparison and asset choice;
  - redaction of secrets in logged URLs and bodies;
  - retry classification and network error hints;
  - user configuration defaults and validation;
  - the CLI's error type, its chains and display;
  - email masking;
  - path shortening;
  - help text formatting.

Conventions throughout the model:

- Go strings are Dafny strings whose characters stand for bytes, so `|s|` is Go's `len(s)`. Case folding and white space are ASCII. Go's `string(b)` of a byte is the UTF-8 encoding of code point `b` (`GoStrings.EncodeRune`).
- Go errors are values: `Option<string>` or `Result<T>`, or the `CliErrors.Error` chain where wrapping matters.
- Operations that update state step by step are methods with loops:
  - the validator's append chain;
  - the CSV loops;
  - the resolver;
  - the upload drivers;
  - `deepMerge`;
  - the `.gitignore` merge;
  - the cache;
  - `CompareVersions`;
  - the redaction loops;
  - `ShortenPath`;
  - `FormatCommandGroup`.

  Each method is proved equal to a specification function, and the lemmas state the source's promises about that function.
- The cache index is a class whose fields the methods update. So is the de-duplicating file collector of `ResolveFiles`.

What the code does not do, though one might expect it to:

- Nothing rejects a spec whose status is "deleted". Nothing checks that a linked frame exists.
- The upload driver never calls `DetermineSpecStatus`, and there is no comparison-based skip. Every item is written with status "draft" (cmd/upload_specs.go:294).
- `ValidatedSpec` is declared but unused.
- cmd/upload_specs.go:281 calls `TransformSpecToPayload` with three arguments, but internal/upload/parser.go:237 declares five. The model takes the section link ID and the payload status as explicit inputs of the per-file world (`SpecWorld.sectionLinkId`, `SpecWorld.payloadStatus`).

## Model

| member | source | states |
|---|---|---|
| UploadValidator.Contains | internal/upload/validator.go:45-52 | true exactly when the item occurs in the list |
| UploadValidator.ValidateSpecContent | internal/upload/validator.go:55-180 | the successive appends build exactly the rule table's ordered violation list for the spec and status |
| UploadValidator.ViolationsAreBrokenRules | internal/upload/validator.go:55-180 | a violation is reported iff the spec breaks that rule. The rules cover negative lengths, min ≥ max (equal values included), and non-empty values outside the accepted lists. An empty buttonType or dataType is never flagged, and no gate hides a broken rule |
| UploadValidator.EmptyTypeMessages | internal/upload/validator.go:61-67 | with an empty type, the completed list starts with "type is required", and the draft list has no type message |
| UploadValidator.UnknownTypeMessage | internal/upload/validator.go:64-66 | a non-empty type outside the accepted options is the first message under every status |
| UploadValidator.OtherStatusesAsDraft | internal/upload/validator.go:57-67 | any status other than completed is checked exactly like draft |
| UploadValidator.CompletedIsDraftPlusTypeRequired | internal/upload/validator.go:61-177 | the completed list is the draft list, preceded by "type is required" when the type is empty |
| UploadValidator.ChecksIgnoreCompletion | internal/upload/validator.go:71-177 | every section after the type check gives the same messages for completed and draft |
| UploadValidator.ContentEmptyIffAllUnset | internal/upload/validator.go:183-208 | a spec has no content iff every one of the 19 content fields is empty or absent |
| UploadValidator.ContentEmptinessIgnoresStructure | internal/upload/validator.go:183-208 | No, DesignItemName, NodeLinkID, SectionLinkID and IsReviewed play no part in emptiness |
| UploadValidator.EmptyContentHasNoDraftViolations | internal/upload/validator.go:183-208 | a spec without content passes every draft rule |
| UploadValidator.MapSpecForComparison | internal/upload/validator.go:212-256 | nil maps to nil; otherwise the projection holds every content field with its value, and absent pointers stay absent |
| UploadValidator.CompareSpecsIsSameContent | internal/upload/validator.go:259-267 | two projections compare equal iff the specs agree on every content field |
| UploadValidator.CompareSpecsNil | internal/upload/validator.go:259-267 | nil equals nil; nil and non-nil differ in either order |
| UploadValidator.CompareIgnoresStructure | internal/upload/validator.go:212-267 | specs differing only in No, DesignItemName, NodeLinkID, SectionLinkID or IsReviewed compare equal |
| UploadValidator.RequiredNilIsNotFalse | internal/upload/validator.go:236-241 | an absent `required` and a present false compare unequal |
| UploadValidator.DetermineSpecStatus | internal/upload/validator.go:271-291 | "none" iff there is no content; "completed" only with an empty completed list; any errors are draft's, with "draft" |
| UploadValidator.StatusIgnoresExisting | internal/upload/validator.go:271-291 | the existing status never changes the decision |
| UploadValidator.StatusByDraftList | internal/upload/validator.go:271-291 | for content: completed when the completed list is empty; otherwise draft with no errors or with draft's list |
| UploadParser.MatchStartIsLeftmost | internal/upload/parser.go:21-25 | the match the path pattern reports is the leftmost one |
| UploadParser.ParsedPathParts | internal/upload/parser.go:15-44 | a parsed path ends in `.csv`. Its parts are trimmed and non-empty, the type is testcases or specs, the file key has no `/`, the frame ID no `-`, the frame name no `.` |
| UploadParser.BackslashesAreSlashes | internal/upload/parser.go:17-19 | a path parses as the same path with backslashes turned into slashes |
| UploadParser.ParseFilePathOf | internal/upload/parser.go:13-44 | every well-formed set of parts, laid out as `.momorph/{type}/{key}/{id}-{name}.csv`, parses back to itself |
| UploadParser.ColumnIndexIsLastColumn | internal/upload/parser.go:152-156 | a column is indexed iff a trimmed header names it, and it maps to the last such column |
| UploadParser.BuildColumnIndex | internal/upload/parser.go:152-156 | the header loop builds that index |
| UploadParser.GetValueIsTrimmed | internal/upload/parser.go:172-177 | a cell value is always trimmed |
| UploadParser.GetValueOfHeader | internal/upload/parser.go:172-177 | for a header column, the value is the trimmed cell, or "" when the row is too short |
| UploadParser.GetValueOfMissingColumn | internal/upload/parser.go:172-177 | an absent column gives "" |
| UploadParser.Atoi | internal/upload/parser.go:179-189 | a parsed number is within int64 |
| UploadParser.AtoiOfIntToString | internal/upload/parser.go:179-189 | Atoi reads back every int64 written in decimal |
| UploadParser.GetInt | internal/upload/parser.go:179-189 | present iff the cell is non-blank and Atoi accepts it, with Atoi's value; never an error |
| UploadParser.ParseBoolIgnoresCase | internal/upload/parser.go:191-207 | getBool's answer ignores case |
| UploadParser.ParseBoolOfWord | internal/upload/parser.go:191-207 | true/yes/1 read as true, false/no/0 as false |
| UploadParser.ParseBoolOtherWords | internal/upload/parser.go:191-207 | every other word is absent |
| UploadParser.ParsedSpecIsTrimmed | internal/upload/parser.go:171-233 | all nineteen text fields a column feeds are trimmed (No, itemName, nameJP, nameTrans, itemId, itemType, itemSubtype, buttonType, dataType, format, defaultValue, validationNote, userAction, linkedFrameId, transitionNote and the three database columns, description); the section link is "" and the review flag unset; numbers lie in int64 |
| UploadParser.EmptyRowHasNoContent | internal/upload/parser.go:171-233 | an empty row parses to a spec without content |
| UploadParser.NormalizeTestAreaRewrites | internal/upload/parser.go:105-110 | "functional" or "function", in any case, becomes "FUNCTION" |
| UploadParser.NormalizeTestAreaKeepsOthers | internal/upload/parser.go:105-110 | every other section passes through unchanged |
| UploadParser.NormalizeTestAreaIdempotent | internal/upload/parser.go:105-110 | rewriting twice is rewriting once |
| UploadParser.ParseSpecsCSV | internal/upload/parser.go:132-169 | fewer than two records is an error; otherwise one parsed spec per data row, in order, over the header's column index |
| UploadParser.ParseTestcasesCSV | internal/upload/parser.go:47-93 | fewer than two records is an error, and so is a path that does not parse; otherwise one test case per data row, under the frame name of the path |
| UploadParser.SpecRowAt | internal/upload/parser.go:160-166 | the k-th spec is the k-th data row parsed |
| UploadParser.PayloadSuppression | internal/upload/parser.go:262-312 | buttonType is kept only for buttons and otherType only for others; linkedFrameId only with an action; dataType only for textarea/text_form/others; required and format are dropped for button/label; lengths only for the length types; table and column dropped for buttons |
| UploadParser.PayloadCopies | internal/upload/parser.go:237-327 | names, action, notes, default value and description are always copied; Name is DesignItemName; status, section link, frame and file IDs pass through |
| UploadParser.TransformIdempotent | internal/upload/parser.go:237-327 | shaping the spec read back from a payload gives the same payload |
| UploadTypes.NewUploadSummary | internal/upload/types.go:172-188 | Total is the result count, Results the input, and each count the number of results with that status |
| UploadTypes.CountsPartitionResults | internal/upload/types.go:177-186 | with only the three declared statuses, the counts add up to Total |
| UploadTypes.OtherStatusCountsNowhere | internal/upload/types.go:147-151 | a result with any other status is in no count |
| UploadTypes.CountPositiveIffPresent | internal/upload/types.go:177-186 | a count is positive iff some result carries that status |
| UploadResolver.ValidateFiles | internal/upload/resolver.go:175-254 | the loop splits the files into the valid ones and the skip entries, in input order |
| UploadResolver.ValidIffAllChecksPass | internal/upload/resolver.go:181-248 | a file is valid iff it exists and is a non-empty CSV file, not a directory, with a matching path of the asked type |
| UploadResolver.MissingFileComesFirst | internal/upload/resolver.go:181-190 | a missing file is reported as "File not found" with the stat error, whatever its name |
| UploadResolver.EmptyFileComesLast | internal/upload/resolver.go:181-248 | "File is empty" is reported only when every earlier check passed |
| UploadResolver.EmptyTypeAcceptsEveryType | internal/upload/resolver.go:229 | without an asked type, no file is skipped for its type |
| UploadResolver.CsvTestIgnoresCase | internal/upload/resolver.go:205 | the `.csv` test ignores case |
| UploadResolver.ValidatePartitions | internal/upload/resolver.go:179-251 | every file lands in exactly one of the two lists |
| UploadResolver.ValidateKeepsOrder | internal/upload/resolver.go:179-251 | both lists keep input order (validation distributes over concatenation) |
| UploadResolver.SkippedEntriesAreSkipped | internal/upload/resolver.go:183-247 | every skip entry is Skipped and named by its file's base name |
| UploadResolver.ValidFilesPass | internal/upload/resolver.go:179-251 | every valid file is an input that passes every check |
| UploadResolver.FirstFailedCheck | internal/upload/resolver.go:181-248 | a failing check gives a Skipped entry for the file, named by its base name |
| UploadResolver.ResolvedMembers | internal/upload/resolver.go:16-21 | a path is resolved from the arguments iff one of them resolves to it |
| UploadResolver.FileCollector.AddFile | internal/upload/resolver.go:16-53 | appends a resolved CSV path with a matching pattern once. A seen path, a directory, a non-CSV file or a non-matching path is ignored silently; only a resolve failure or a missing file is an error. The collected list stays duplicate-free |
| UploadResolver.FileCollector.AddAll | internal/upload/resolver.go:63-68 | the glob and directory loops add paths past errors; the list only grows, keeps its old paths first and stays duplicate-free; every input that resolves to an existing collectable CSV file ends up in it, and nothing but resolved inputs is added |
| UploadSpecs.CollectNodeLinkIds | cmd/upload_specs.go:256-261 | the loop gathers the non-empty node link IDs in file order |
| UploadSpecs.NodeLinkIdsAreTheNonEmptyOnes | cmd/upload_specs.go:256-261 | an ID is queried iff it is non-empty and some spec carries it |
| UploadSpecs.BuildExistingMap | cmd/upload_specs.go:273-276 | the loop builds the map of existing items by node link ID |
| UploadSpecs.ExistingMapKeys | cmd/upload_specs.go:273-276 | its keys are exactly the items' node link IDs |
| UploadSpecs.ExistingMapKeepsLast | cmd/upload_specs.go:273-276 | a later item with the same ID overwrites an earlier one |
| UploadSpecs.BuildUpsertItems | cmd/upload_specs.go:279-303 | the loop builds one upsert entry per spec |
| UploadSpecs.UpsertItemAt | cmd/upload_specs.go:279-303 | entry k is spec k's payload, named by its design item name, with status "draft" and specs attached only when present |
| UploadSpecs.BuildRevisions | cmd/upload_specs.go:320-338 | the loop builds the revisions of the saved items |
| UploadSpecs.RevisionsAreForExistingItems | cmd/upload_specs.go:320-338 | a revision is made exactly for each saved item whose node link ID was already in the existing map |
| UploadSpecs.UploadSingleSpecFile | cmd/upload_specs.go:195-360 | the steps of uploadSingleSpecFile produce the modelled outcome and call trace |
| UploadSpecs.NoCallsBeforeTheFrameLookup | cmd/upload_specs.go:199-229 | no remote call iff the path, CSV or zero-spec check stops the file; such a file is Skipped or Failed |
| UploadSpecs.SpecSkippedOnlyForThePath | cmd/upload_specs.go:199-229 | a spec file is Skipped iff its path does not parse |
| UploadSpecs.ParsedSpecFileIsNeverEmpty | cmd/upload_specs.go:211-229 | a parsed file holds one spec per data row, so never none |
| UploadSpecs.FirstCallIsTheFrameLookup | cmd/upload_specs.go:234-238 | the first call is GetFrame with the path's file key and frame ID |
| UploadSpecs.RefusedFrameWritesNothing | cmd/upload_specs.go:234-253 | a lookup error, a missing frame or a frame in "design" status fails the file after the lookup alone |
| UploadSpecs.QueryOnlyForNodeLinkIds | cmd/upload_specs.go:256-270 | the existing-items query is made iff some spec has a node link ID, with exactly those IDs |
| UploadSpecs.QueryErrorIsNoExistingItems | cmd/upload_specs.go:264-270 | a failed query is treated as finding no existing items |
| UploadSpecs.UpsertItemsIgnoreTheRest | cmd/upload_specs.go:279-303 | the upsert entries depend on the world only through the section link ID and status |
| UploadSpecs.UpsertSendsEverySpec | cmd/upload_specs.go:279-315 | past the frame checks, the upsert sends one item per spec right after the lookup and the optional query |
| UploadSpecs.SuccessIffSaved | cmd/upload_specs.go:306-359 | a file succeeds iff it reaches an accepting frame and the upsert succeeds; the message counts the saved items |
| UploadSpecs.ResultDependsOnlyOnPathCsvFrameAndUpsert | cmd/upload_specs.go:195-360 | the result depends only on the path, the CSV, the frame and the upsert response |
| UploadSpecs.RevisionsDoNotChangeTheResult | cmd/upload_specs.go:320-359 | neither the actor nor the user lookup nor the revision insert changes the result |
| UploadSpecs.NoActorNoRevisions | cmd/upload_specs.go:320-323 | without an actor no revision call is made |
| UploadSpecs.RevisionsNeedUserAndExistingItems | cmd/upload_specs.go:320-352 | with an actor, the user lookup is made. Revisions are inserted only when it succeeds and some saved item already existed |
| UploadSpecs.UploadSpecFiles | cmd/upload_specs.go:160-193 | uploadSpecFiles is the file loop over the per-file uploads |
| UploadTestcases.UploadSingleTestcaseFile | cmd/upload_testcases.go:183-274 | the steps of uploadSingleTestcaseFile produce the modelled outcome and call trace |
| UploadTestcases.ParsedFileIsNeverEmpty | cmd/upload_testcases.go:199-217 | a parsed file holds one test case per data row, under the path's frame name |
| UploadTestcases.NoCallsBeforeTheLookup | cmd/upload_testcases.go:187-208 | no call before the lookup; a bad path is Skipped, a bad CSV Failed |
| UploadTestcases.SkippedOnlyForThePath | cmd/upload_testcases.go:187-196 | a test-case file is Skipped iff its path does not parse |
| UploadTestcases.UpdatesOnlyTheFirst | cmd/upload_testcases.go:227-239 | with stored test cases only the first is updated: no frame lookup, no insert |
| UploadTestcases.LookupErrorMeansInsert | cmd/upload_testcases.go:222-226 | a failed GetFrameTestCases leads to the insert path |
| UploadTestcases.InsertPath | cmd/upload_testcases.go:240-266 | on the insert path a missing frame fails with "Frame not found", and an insert error fails |
| UploadTestcases.SuccessIffSaved | cmd/upload_testcases.go:227-273 | success iff the update or insert succeeds, with "Uploaded N test cases" for the parsed count |
| UploadTestcases.ResultNamesTheFile | cmd/upload_testcases.go:183-274 | every result names the file by its path and base name |
| UploadTestcases.UploadTestcaseFiles | cmd/upload_testcases.go:148-181 | uploadTestcaseFiles is the file loop over the per-file uploads |
| UploadTestcases.SummaryLineOf | cmd/upload_testcases.go:276-297 | all uploaded iff nothing failed or was skipped; none uploaded iff something did and nothing succeeded; the mixed line otherwise |
| UploadTestcases.EmptyRunReportsAllUploaded | cmd/upload_testcases.go:276-297 | an empty run reports all zero files uploaded |
| UploadTestcases.DisplayUploadSummary | cmd/upload_testcases.go:276-297 | the line is chosen from the summary of the results |
| UploadLoop.UploadFiles | cmd/upload_specs.go:160-193 | the loop checks cancellation before each file and stops after a failure unless continueOnError |
| UploadLoop.ResultsFollowFiles | cmd/upload_specs.go:160-193 | the k-th result is the k-th file's: results keep file order |
| UploadLoop.OnlyTheLastMayFail | cmd/upload_specs.go:180-186 | without continueOnError, no result before the last one is a failure |
| UploadLoop.EndsEarlyOnlyForCause | cmd/upload_testcases.go:148-181 | a run ends before the last file only for a cancellation or, without continueOnError, a failure |
| UploadLoop.CompletesWithoutFailure | cmd/upload_testcases.go:148-181 | Skipped and Success never stop the run: without cancellation or failure every file is uploaded |
| UploadLoop.CallsFollowFiles | cmd/upload_specs.go:160-193 | the calls of a run are those of its files, in order |
| JsonValues.DecodeObject | internal/template/mcp.go:50-53 | decoding into a map succeeds iff the document is an object or null; null gives a nil map; unparsable text keeps its error; any other value gives "json: cannot unmarshal <bool, number, string or array> into Go value of type map[string]interface {}" |
| JsonValues.ObjectAt | internal/template/mcp.go:56-65 | the type assertion succeeds iff the key holds an object |
| TemplateMerge.ShouldMerge | internal/template/merge.go:22-32 | JSON for `.vscode/settings.json` and `.mcp.json`, Gitignore for `.gitignore`, nothing else |
| TemplateMerge.DeepMerge | internal/template/merge.go:79-108 | the two loops and the recursion build the merged object |
| TemplateMerge.MergedKeys | internal/template/merge.go:79-106 | the keys are the union; a template-only key takes the template's value |
| TemplateMerge.ExistingValueWins | internal/template/merge.go:88-104 | a shared key keeps the existing value unless both are objects, which merge recursively |
| TemplateMerge.MergeWithEmpty | internal/template/merge.go:80-103 | merging with an empty object on either side gives the other |
| TemplateMerge.MergeIntoItself | internal/template/merge.go:79-108 | merging an object into itself changes nothing |
| TemplateMerge.MergeTwice | internal/template/merge.go:79-108 | merging the same template twice is merging it once |
| TemplateMerge.ReadLinesAsSet | internal/template/merge.go:161-177 | the loop builds the set of trimmed non-empty lines |
| TemplateMerge.LineSetMembers | internal/template/merge.go:161-176 | the set holds exactly the trimmed forms of the non-blank lines |
| TemplateMerge.MergeGitignore | internal/template/merge.go:111-158 | the loop's writes and added count are those of the line merge |
| TemplateMerge.SeparatorOnceAndFirst | internal/template/merge.go:132-147 | the separator is written once, before the first added line, and never when nothing is added |
| TemplateMerge.AddedLinesAreNew | internal/template/merge.go:136-152 | an added line is a candidate, new to the file and to earlier additions, and written untrimmed |
| TemplateMerge.EveryCandidateEndsUpPresent | internal/template/merge.go:136-152 | every non-blank, non-comment template line ends up in the file |
| TemplateMerge.LinesAreExistingPlusAdded | internal/template/merge.go:136-152 | the final line set is the existing lines plus the added ones |
| TemplateMcp.ConfigureClaude | internal/template/mcp.go:34-111 | a missing file, `mcpServers` or `momorph` changes nothing; read, parse and non-object errors are reported; otherwise the Claude edit is written: url and token header set, headers created when missing or null, every other key kept |
| TemplateMcp.ClaudeUpdateIsUnique | internal/template/mcp.go:79-96 | the Claude edit determines the new config |
| TemplateMcp.ClaudeUpdateIsStable | internal/template/mcp.go:79-96 | a second edit with the same token and endpoint leaves the config as it is |
| TemplateMcp.SetMomorphServer | internal/template/mcp.go:155-170 | `mcpServers` (replaced by `{}` when missing or not an object) gets the tool's momorph server wholesale; other servers and keys are kept |
| TemplateMcp.GlobalUpdateIsUnique | internal/template/mcp.go:155-170 | the global edit determines the new config |
| TemplateMcp.GlobalUpdateIsStable | internal/template/mcp.go:155-170 | a second global edit leaves the config as it is |
| TemplateMcp.ConfigureGlobalAsWritten | internal/template/mcp.go:127-184 | as written, the Cursor/Windsurf updaters panic iff the file holds null; otherwise they write the global edit of the loaded config (or `{}`), or report the home, mkdir or write error |
| TemplateMcp.NullConfigDecodesToNilMap | internal/template/mcp.go:143-161 | a null file decodes without error to a nil map, the input that makes them panic |
| TemplateMcp.ConfigureGlobal | internal/template/mcp.go:191-248 | with null read as an empty config the updaters never panic and always write the edit or report an error; Windsurf uses `serverUrl` |
| TemplateMcp.GetConfigUpdater | internal/template/mcp.go:251-265 | an updater exactly for claude, copilot, cursor and windsurf |
| TemplateMcp.UpdateAIToolConfig | internal/template/mcp.go:267-276 | an unknown tool is "no config updater available for AI tool: " + the tool; claude has the Claude updater's outcome on the project file; copilot changes nothing; cursor and windsurf have the global updater's outcome. Those go to the corrected ConfigureGlobal, so a `null` global config is edited instead of panicking as the code as written does; the result never panics |
| TemplateCache.Cache.constructor | internal/template/cache.go:66-88 | the cache starts from the loaded index, or from an empty index of version 1.0 |
| TemplateCache.Cache.Get | internal/template/cache.go:126-147 | absent: error, no change; expired (age > ttl, strict): error; missing file: the entry is dropped; otherwise the entry |
| TemplateCache.Cache.Put | internal/template/cache.go:150-183 | records the entry for the tool with the checksum, the data length and `{tool}-{version}-{checksum[:8]}.zip`; other entries unchanged |
| TemplateCache.Cache.GetCachedFile | internal/template/cache.go:186-198 | the file path iff the tool is cached and its file opens |
| TemplateCache.Cache.Remove | internal/template/cache.go:201-215 | an absent tool is no change and no error; otherwise exactly that entry goes, unless its file cannot be removed |
| TemplateCache.Cache.Clear | internal/template/cache.go:218-233 | leaves no entry and index version 1.0 |
| TemplateCache.Cache.List | internal/template/cache.go:236-242 | one element per tool: the elements are read from the tools of the index, each tool exactly once, so an entry held by two tools appears twice; every entry occurs and nothing else does |
| TemplateCache.Cache.Size | internal/template/cache.go:245-251 | the sum of the entry sizes |
| TemplateCache.Cache.Prune | internal/template/cache.go:254-264 | removes the expired entries whose files can be removed and keeps every other; the index is stamped with the current time iff an entry went, and the version is kept; never an error |
| TemplateCache.PruneWithoutErrors | internal/template/cache.go:254-264 | with no removal error, Prune keeps exactly the unexpired entries |
| TemplateCache.Cache.VerifyIntegrity | internal/template/cache.go:267-286 | lists each tool whose file is unreadable or mismatched, each once; true iff none |
| TemplateCache.TotalSizeAdd | internal/template/cache.go:245-251 | adding an entry for a new tool adds its size |
| UpdateGithub.GetVersion | internal/update/github.go:82-88 | the tag without exactly one leading "v" |
| UpdateGithub.CompareVersions | internal/update/github.go:128-169 | the loop and its early returns compute the version order, -1, 0 or 1 |
| UpdateGithub.DevIsOldest | internal/update/github.go:134-139 | a first "dev" is older than anything, checked first; otherwise a second "dev" is older |
| UpdateGithub.CompareFromIsLexicographic | internal/update/github.go:146-168 | the first differing component decides, with missing components read as 0 |
| UpdateGithub.VersionOrderIsAntisymmetric | internal/update/github.go:141-168 | outside "dev", swapping the arguments flips the result, and a version equals itself |
| UpdateGithub.VersionOrderIsTransitive | internal/update/github.go:141-168 | outside "dev", the order is transitive |
| UpdateGithub.TrailingZeroIsIgnored | internal/update/github.go:146-168 | "1.2" and "1.2.0" compare alike against every version |
| UpdateGithub.ScanReadsTheLeadingNumber | internal/update/github.go:153-158 | a component is read as its leading number, whatever follows |
| UpdateGithub.NoNumberReadsZero | internal/update/github.go:153-158 | a component without a number reads as 0 |
| UpdateGithub.GetAssetForPlatform | internal/update/github.go:91-124 | an unknown arch is an error; otherwise the first asset whose lowercased name holds a platform pattern, or the not-found error |
| UtilsHttp.ParamEnd | internal/utils/http.go:342-347 | the value ends at the next `&`, or at the end |
| UtilsHttp.RedactParam | internal/utils/http.go:329-353 | without a case-insensitive `name=` the URL is unchanged; otherwise the first match becomes the lower-case `name=[REDACTED]`, keeping the text before it and from the `&` on |
| UtilsHttp.SanitizeUrl | internal/utils/http.go:329-353 | the loops redact token, key, secret, password, access_token and api_key, in that order |
| UtilsHttp.RedactParamInPlace | internal/utils/http.go:340-348 | one parameter's step computes its redaction |
| UtilsHttp.RedactParamsOfCleanUrl | internal/utils/http.go:340 | a URL without any sensitive `name=` is returned unchanged |
| UtilsHttp.RedactParamIdempotent | internal/utils/http.go:329-353 | redacting a parameter twice is redacting it once |
| UtilsHttp.ShapeOfRedacted | internal/utils/http.go:340-348 | the redacted URL is the prefix, the redacted pair and the rest from the `&` |
| UtilsHttp.ValueSpan | internal/utils/http.go:368-379 | no span iff the pattern never occurs, ignoring case; otherwise the run after the leading spaces and quotes, up to the next quote, comma or brace |
| UtilsHttp.RedactField | internal/utils/http.go:356-387 | the value run is replaced by `[REDACTED]`; no match or an empty run changes nothing |
| UtilsHttp.SkipValueLead | internal/utils/http.go:370-374 | the first loop stops at the value's start |
| UtilsHttp.FindValueEnd | internal/utils/http.go:376-379 | the second loop stops at the value's end |
| UtilsHttp.RedactFieldInPlace | internal/utils/http.go:368-383 | one pattern's step computes its redaction |
| UtilsHttp.SanitizeBody | internal/utils/http.go:356-387 | redacts every sensitive field in turn |
| UtilsHttp.RedactFieldIdempotent | internal/utils/http.go:356-387 | redacting a field twice is redacting it once |
| UtilsHttp.RedactFieldsOfCleanBody | internal/utils/http.go:356-387 | a body without any pattern is unchanged |
| UtilsHttp.IsSensitiveHeader | internal/utils/http.go:390-406 | true iff the lower-cased name is one of the five sensitive names |
| UtilsHttp.SensitiveHeaderIgnoresCase | internal/utils/http.go:390-406 | names differing only in case are treated alike |
| UtilsHttp.IsRetryableStatus | internal/utils/http.go:275-285 | true exactly for 429, 502, 503 and 504 |
| UtilsHttp.IsRetryableError | internal/utils/http.go:220-249 | nil is not retryable; a `net.Error` is retryable iff it is a timeout or temporary; any other error iff its lowered message holds a pattern |
| UtilsHttp.EofPatternNeverMatches | internal/utils/http.go:232-246 | the upper-case "EOF" pattern never matches, so only the other patterns count |
| UtilsHttp.NetworkHint | internal/utils/http.go:299-316 | the hint by case-sensitive substring: host, then refused, then timeout, then TLS/certificate, else generic |
| UtilsHttp.WrapNetworkError | internal/utils/http.go:299-316 | the message is hint + ": " + the original; the original stays on the chain |
| UtilsHttp.WrappedNetErrorRetriesAlike | internal/utils/http.go:220-261 | wrapping keeps the `net.Error` that retry classification sees |
| Config.DefaultEndpoint | internal/config/config.go:27-37 | production by default, staging for MOMORPH_ENV staging/stg, overridden by a non-empty MOMORPH_API_ENDPOINT; never empty |
| Config.DefaultConfig | internal/config/config.go:26-52 | the fixed defaults with the environment's endpoint and Basic Auth credentials |
| Config.Validate | internal/config/config.go:113-143 | valid iff the endpoint is set, a chosen tool is copilot/cursor/claude, and the level is one of the four |
| Config.IsStaging | internal/config/config.go:156-164 | true iff MOMORPH_ENV is staging or stg, or both Basic Auth credentials are set (HasBasicAuth, config.go:156-158) |
| Config.DefaultConfigIsValid | internal/config/config.go:26-52 | the defaults pass validation in every environment |
| Config.ValidateDependsOnlyOnTheChecks | internal/config/config.go:113-143 | a known tool and level keep a valid config valid; an unknown level or an empty endpoint is rejected |
| Config.DefaultConfigStaging | internal/config/config.go:26-52 | the defaults are staging in a staging environment, and elsewhere only with Basic Auth |
| CliErrors.CliMessage | internal/errors/errors.go:39-44 | the user message, with ": " and the technical message when there is one |
| CliErrors.Unwrap | internal/errors/errors.go:47-49 | the next error of the chain; for a CLIError, its technical error |
| CliErrors.AsCli | internal/errors/errors.go:103-110 | a found CLIError is on the chain |
| CliErrors.IsIsTransitive | internal/errors/errors.go:103-106 | being on a chain is transitive |
| CliErrors.NewCliError | internal/errors/errors.go:58-64 | the given fields with an empty stack trace |
| CliErrors.NewError | internal/errors/errors.go:67-69 | exit code 1 |
| CliErrors.NewUsageError | internal/errors/errors.go:72-74 | exit code 2 and no technical error, so its message is the user message |
| CliErrors.NewAuthError | internal/errors/errors.go:77-79 | exit code 3 |
| CliErrors.NewNetworkError | internal/errors/errors.go:82-84 | exit code 4 |
| CliErrors.WithStackTrace | internal/errors/errors.go:52-55 | only the stack trace changes |
| CliErrors.TechnicalErrorStaysOnTheChain | internal/errors/errors.go:47-49 | the technical error is on the CLIError's chain |
| CliErrors.Wrap | internal/errors/errors.go:87-92 | nil stays nil; otherwise "message: inner", with inner next on the chain |
| CliErrors.Wrapf | internal/errors/errors.go:95-100 | the same with the formatted context |
| CliErrors.WrapKeepsTheCliError | internal/errors/errors.go:87-110 | wrapping keeps the CLIError a chain holds |
| CliErrors.FormatError | internal/errors/errors.go:135-155 | for a CLIError on the chain: its user message, then the technical details and stack trace only when asked for and present; otherwise the error's message |
| CliErrors.FormatStartsWithUserMessage | internal/errors/errors.go:135-155 | the display of a CLIError starts with its user message |
| CliErrors.FormatHidesDetailsByDefault | internal/errors/errors.go:135-155 | without the flag only the user message shows |
| CliErrors.FormatSeesThroughWrapping | internal/errors/errors.go:135-155 | more context around a CLIError does not change its display |
| GoStrings.EncodeRune | cmd/utils.go:26-30 | `string(b)`: one byte, `b` itself, below 0x80; from 0x80 up two bytes, each at least 0x80, the first 0xC2 or 0xC3 |
| GoStrings.DecodeEncodeRune | cmd/utils.go:26-30 | the UTF-8 payload bits of `string(c)` give back the code point `c` |
| CmdUtils.MaskEmailRejectsMalformed | cmd/utils.go:7-11 | "***" exactly when the email does not split into two parts on "@" |
| CmdUtils.MaskEmailOfAddress | cmd/utils.go:13-30 | the domain is kept verbatim after "@", and the local part is masked by its length: "***", "*", first + "*", or first + "***" + last, where a kept byte is `string(b)`: itself below 0x80, its two-byte UTF-8 encoding from 0x80 up |
| CmdUtils.MaskEmailExample | cmd/utils.go:5-6 | john@example.com becomes j***n@example.com |
| CmdUtils.MaskEmailOfHighByte | cmd/utils.go:26-30 | a local part starting with byte 0xC3 is shown starting with 0xC3 0x83, the UTF-8 of code point 0xC3 |
| UiUtils.ShortenPath | internal/ui/utils.go:10-24 | the loop overwriting the parts computes the shortened path |
| UiUtils.ShortenedPathParts | internal/ui/utils.go:10-24 | at most two cleaned parts give the input unchanged, not cleaned. Otherwise the count is kept, the last part stays whole, and each earlier part becomes `string` of its first byte (the byte itself below 0x80, its two-byte UTF-8 encoding from 0x80 up), empty when empty |
| UiUtils.ShortenedPathOfFour | internal/ui/utils.go:8-9 | the general form of /Users/john/workspaces/project → /U/j/w/project, each parent part `string` of its first byte |
| UiUtils.ShortenedPathIdempotent | internal/ui/utils.go:10-24 | shortening a shortened path of a clean input changes nothing when every parent part starts with an ASCII byte or 0xC3 |
| UiUtils.ReencodedLeadChangesAgain | internal/ui/utils.go:19 | a part led by another byte from 0x80 up changes again when abbreviated a second time: 0xC2 0xA9 gives 0xC3 0x82, which gives 0xC3 0x83 |
| Help.IsColorEnabled | cmd/help.go:67-81 | colour iff NO_COLOR is unset, TERM is not "dumb" and stdout is a terminal |
| Help.FormatCommandGroup | cmd/help.go:143-153 | title + ":\n", then "  " + command + "\n" per command, in order; exactly title + ":\n" when empty |
| Help.CommandGroupLines | cmd/help.go:143-153 | split into lines: the title line, one indented line per command, and a final empty line |
| Help.FormatHelpSection | cmd/help.go:156-169 | title + "\n" + content + "\n" without colour; with colour the title is wrapped in the bold and reset codes |
| Help.ColorOnlyWrapsTheTitle | cmd/help.go:158-163 | the coloured and plain sections differ only by the codes around the title |

## Left out

- The CSV lexer: input is the records `encoding/csv` would produce. File reading and writing: files are the results a read gives, and a write's error is an input.
- MergeGitignore: the three I/O error returns of MergeGitignoreFiles are not modelled: "failed to read existing .gitignore: ", "failed to read template .gitignore: " and "failed to open .gitignore for appending: ". The model starts from both files' lines.
- Cache.Put: the file path is `cacheDir + "/" + name`. `filepath.Join` also cleans the path, which differs only when the tool or version holds "/" or "..".
- The path pattern is modelled structurally, as the stages of its single regular expression, not as a regular-expression engine.
- Every remote call is an input of the per-file world, value or error: GetFrame, ListDesignItemsByNodeLinkIds, Upsert, GetMorpheusUserByEmail, InsertDesignItemRevs, GetFrameTestCases, Insert and Update. internal/graphql/client.go is not part of this model.
- Progress output and log lines of the upload commands are not modelled. They change no result.
- Glob expansion, `scanDirectory` and the `.momorph` directory default of `ResolveFiles`: their output is the path list handed to `AddAll`. `filepath.Abs` and `os.Stat` are parameters.
- Go's error texts for the validator are a `Violation` value per rule. `Message` gives the text printed for each.
- `Atoi` is modelled for decimal int64 text with an optional sign. The 32-bit `int` of 386 builds is not modelled.
- JSON numbers are kept as their text. `MarshalIndent` output and its error are not modelled: a write is the map written.
- Go map aliasing in the MCP updaters, where the inner map is updated in place and seen through the outer one, is modelled as storing the inner map back.
- Cache:
  - The clock is an integer of seconds, not nanoseconds.
  - SHA-256 is given as the checksum parameter.
  - File existence, removal and opening are parameters.
  - Put's removal of a half-written file on failure is not modelled.
  - A loaded index with a nil entry map (an index.json without "entries", or with `"entries": null`) is read as an empty map. loadIndex has no nil check, so in Go the store into that map in Put panics, where the model adds the entry.
  - `Size` uses unbounded integers (no int64 overflow).
- `fmt.Sscanf` in CompareVersions skips ASCII spaces only, not other Unicode spaces.
- `GetLatestRelease` (network), `captureStackTrace` (the runtime's stack), config `Load`/`Save`/`GetTemplateEndpoint` (files), and `DoWithRetry`, backoff and request IDs (clock, randomness, network) are not modelled.
- `filepath.Clean` in ShortenPath is a parameter. `isColorEnabled`'s terminal test is a boolean parameter.
- `PrintBanner` and the cobra help templates are not modelled (terminal output).
- UiUtils.ShortenedPathOfFour: the doc example of ShortenPath is proved for every four-part path of its shape, not for the literal string.
- UploadParser.ParseFilePathOf: the doc example path of ParseFilePath is covered by this all-inputs round trip, not by a lemma on the literal string.
- Unicode case folding and white space in `strings.ToLower`, `TrimSpace` and `EqualFold` are not modelled: ASCII only.
- ShortenedPathIdempotent: promised only when every parent part of the cleaned path starts with an ASCII byte or 0xC3, because `string(b)` turns any other byte from 0x80 up into two bytes whose lead abbreviates differently again (ReencodedLeadChangesAgain).
- CliErrors.Is compares errors by value. Go's `errors.Is` on a `*CLIError` compares pointers, so two distinct CLIErrors with equal fields are equal here and not in Go.
- encoding/json is not part of this model: DecodeObject takes the decoded document, and its type error names only the kind of the value, without the byte offset Go keeps in the error value.

## Findings

| source | as written | input that shows it | evidently intended | confidence | as-written member | corrected member |
|---|---|---|---|---|---|---|
| internal/template/mcp.go:143-161 (and the Windsurf copy at mcp.go:207-225) | `json.Unmarshal` of a file holding `null` leaves `mcpConfig` a nil map without error; `mcpConfig["mcpServers"] = servers` then panics | `~/.cursor/mcp.json` (or Windsurf's) containing `null` | treat a null config like a missing or unparseable one, starting from `{}` | not executed | TemplateMcp.ConfigureGlobalAsWritten | TemplateMcp.ConfigureGlobal |
