# ehrbase REST controllers — a Dafny model

This project models the decision logic of four ehrbase REST controllers.

- **Directory** (`/rest/openehr/v1/ehr/{ehr_id}/directory`):
  - path validation;
  - the EHR, directory and If-Match guards and their order;
  - the lifecycle of the EHR → directory link;
  - the choice of status, body, ETag and Location.
- **Query** (`/rest/openehr/v1/query`):
  - the textual ` LIMIT ` / ` OFFSET ` pagination;
  - the choice of executor overload (with or without parameters);
  - the LATEST default for stored queries and the `name/version` tag;
  - the 200 / 204 / 400 choice.
- **Versioned EHR status** (`/rest/openehr/v1/ehr/{ehr_id}/versioned_ehr_status`):
  - the EHR check that comes first;
  - version-uid parsing by `split("::")`, `UUID.fromString` and `Integer.parseInt`;
  - the ordinal range check;
  - the latest-or-at-time choice of ordinal.
- **EhrScape composition** (`/rest/ecis/v1/composition`):
  - composition ids taken apart with `contains`, `indexOf`, `lastIndexOf` and `substring`;
  - the template-id check for the flat formats;
  - the `uuid::node::1` uid of a new composition;
  - the latest-version target and the version-1 EHR lookup of update and delete;
  - the meta href.

The services behind the controllers are not modelled as code. Each one is an input:
- `EhrService`, `FolderService`, `ContributionService`, `QueryService` and `CompositionService` become records of functions, or function parameters.
- The directory store is the exception. Its writes are what the guards protect, so it is a class, `Directory.DirectoryStore`, with three parts:
  - the set of EHRs;
  - a map `directoryOf` from EHR to directory;
  - a map `lastVersion` from directory to its latest ordinal.

  Its `CreateFolder`, `UpdateFolder` and `DeleteFolder` methods change those maps.

The Java library behaviour the controllers depend on is modelled in `JavaText`, exactly except where "## Left out" says otherwise:
- `String.indexOf`, `lastIndexOf`, `contains`;
- `split` with a literal separator, which drops trailing empty strings;
- `Integer.parseInt`, which takes an optional sign and leading zeros and only 32-bit values;
- `Integer.toString`, which is also what `"" + n` produces, and what `%d` produces when the default format locale uses ASCII digits.

On top of these, `VersionUid` proves that an `objectId::node::ordinal` text splits back into its parts.

Module layout:
- `wrappers.dfy` defines `Option`.
- `api.dfy` defines the API errors and `Result`.
- `java_text.dfy`, `uuids.dfy` and `version_uid.dfy` hold the string layer.
- `folder_path.dfy` holds the path regex.
- `directory.dfy`, `query.dfy`, `ehr_status.dfy` and `composition.dfy` hold one controller each.

## Model

| member | source | states |
|---|---|---|
| JavaText.IndexOf | rest-ehr-scape/src/main/java/org/ehrbase/rest/ehrscape/controller/CompositionController.java:183 | `indexOf` gives -1 or an occurrence, and there is no occurrence before it |
| JavaText.LastIndexOf | rest-ehr-scape/src/main/java/org/ehrbase/rest/ehrscape/controller/CompositionController.java:189 | `lastIndexOf` gives -1 or an occurrence, and there is no occurrence after it |
| JavaText.ContainsIffOccurs | rest-ehr-scape/src/main/java/org/ehrbase/rest/ehrscape/controller/CompositionController.java:181 | `contains` holds exactly when the separator occurs somewhere |
| JavaText.SplitPieces | rest-openehr/src/main/java/org/ehrbase/rest/openehr/OpenehrVersionedEhrStatusController.java:185-186 | there is always at least one piece, and no piece contains the separator |
| JavaText.JoinSplitPieces | rest-openehr/src/main/java/org/ehrbase/rest/openehr/OpenehrVersionedEhrStatusController.java:185-186 | joining the pieces with the separator gives back the original string |
| JavaText.DropTrailingEmpty | rest-openehr/src/main/java/org/ehrbase/rest/openehr/OpenehrVersionedEhrStatusController.java:185-186 | the result is a prefix, it does not end in an empty string, and only empty strings were dropped |
| JavaText.Split | rest-openehr/src/main/java/org/ehrbase/rest/openehr/OpenehrVersionedEhrStatusController.java:185-186 | `split` gives `[s]` when there is no separator; otherwise no piece holds the separator and the last piece is non-empty |
| JavaText.IndexOfExtend | rest-ehr-scape/src/main/java/org/ehrbase/rest/ehrscape/controller/CompositionController.java:183 | the first occurrence in a string stays the first when text is appended |
| JavaText.SplitPiecesCons | rest-openehr/src/main/java/org/ehrbase/rest/openehr/OpenehrVersionedEhrStatusController.java:185-186 | splitting `p + sep + rest` gives `p` and then the pieces of `rest`, when the separator after `p` is its first occurrence |
| JavaText.IntToString | rest-openehr/src/main/java/org/ehrbase/rest/openehr/OpenehrDirectoryController.java:526-531 | the text of an int is non-empty and holds only digits and '-' |
| JavaText.ParseInt | rest-openehr/src/main/java/org/ehrbase/rest/openehr/OpenehrVersionedEhrStatusController.java:186 | a result is always a 32-bit value, and the empty string never parses |
| JavaText.ParseIntOfIntToString | rest-openehr/src/main/java/org/ehrbase/rest/openehr/OpenehrVersionedEhrStatusController.java:186 | `parseInt(Integer.toString(n)) == n` for every 32-bit `n` |
| JavaText.IntToStringInjective | rest-openehr/src/main/java/org/ehrbase/rest/openehr/OpenehrDirectoryController.java:526-531 | distinct ordinals have distinct text |
| JavaText.ParseIntSigns | rest-openehr/src/main/java/org/ehrbase/rest/openehr/OpenehrVersionedEhrStatusController.java:186 | examples: "+7" parses to 7, "-7" to -7 and "07" to 7; "", "-", "+" and "7a" are refused |
| Uuids.UuidFromString | rest-openehr/src/main/java/org/ehrbase/rest/openehr/OpenehrVersionedEhrStatusController.java:185 | `UUID.fromString` succeeds exactly on 8-4-4-4-12 hex text, and gives back a canonical uuid unchanged |
| Uuids.UuidHasNoColon | rest-ehr-scape/src/main/java/org/ehrbase/rest/ehrscape/controller/CompositionController.java:181-183 | uuid text holds no ':' |
| VersionUid.FormatUid | rest-ehr-scape/src/main/java/org/ehrbase/rest/ehrscape/controller/CompositionController.java:78 | `objectId::node::tree`; split back into its parts by SplitFormatUid and SplitExtendedUid |
| VersionUid.FormatVersionUid | rest-openehr/src/main/java/org/ehrbase/rest/openehr/OpenehrDirectoryController.java:526-531 | the same with a decimal ordinal; injective by FormatVersionUidInjective, parsed back by ParseFormattedStatusUid and VersionUidRoundTrip |
| VersionUid.SegmentCharacterisation | rest-openehr/src/main/java/org/ehrbase/rest/openehr/OpenehrVersionedEhrStatusController.java:185-186 | a string can be split off before "::" exactly when it holds no "::" and does not end in ':' |
| VersionUid.IndexOfAfterSegment | rest-ehr-scape/src/main/java/org/ehrbase/rest/ehrscape/controller/CompositionController.java:183 | the first "::" of `p::rest` is the one after segment `p` |
| VersionUid.NoSepIntoColonFree | rest-ehr-scape/src/main/java/org/ehrbase/rest/ehrscape/controller/CompositionController.java:189 | no "::" starts past the separator after `p` in `p::d`, when `d` holds no ':' |
| VersionUid.LastIndexOfBeforeColonFree | rest-ehr-scape/src/main/java/org/ehrbase/rest/ehrscape/controller/CompositionController.java:189 | the last "::" of `p::d` is the one before `d`, when `d` holds no ':' |
| VersionUid.SplitFormatUid | rest-openehr/src/main/java/org/ehrbase/rest/openehr/OpenehrVersionedEhrStatusController.java:185-186 | `split("::")` of `objectId::node::tree` gives back exactly the three parts |
| VersionUid.SplitExtendedUid | rest-openehr/src/main/java/org/ehrbase/rest/openehr/OpenehrVersionedEhrStatusController.java:185-186 | a uid with a fourth segment splits into all four parts |
| VersionUid.SplitAfterSegment | rest-openehr/src/main/java/org/ehrbase/rest/openehr/OpenehrVersionedEhrStatusController.java:185-186 | `split` of `p::rest` is `p` followed by the pieces of `rest`, when the last piece is non-empty |
| VersionUid.FormatVersionUidInjective | rest-openehr/src/main/java/org/ehrbase/rest/openehr/OpenehrDirectoryController.java:526-534 | two `%s::%s::%d` uids of the same directory and node are equal only for equal ordinals |
| FolderPath.IsValidPath | rest-openehr/src/main/java/org/ehrbase/rest/openehr/OpenehrDirectoryController.java:494-497 | `isValidPath` is true exactly when the whole path is in the language of the folder-path regular expression (one or more groups of an optional '/', word, whitespace or '-' characters, and an optional '/') |
| FolderPath.PatternIffPathChars | rest-openehr/src/main/java/org/ehrbase/rest/openehr/OpenehrDirectoryController.java:494-497 | a path matches the pattern exactly when each character is a word character, whitespace, '-' or '/' |
| FolderPath.GroupHasPathChars | rest-openehr/src/main/java/org/ehrbase/rest/openehr/OpenehrDirectoryController.java:495 | one iteration of the group consumes only path characters |
| FolderPath.AcceptedPaths | rest-openehr/src/main/java/org/ehrbase/rest/openehr/OpenehrDirectoryController.java:486-497 | examples: "", "/", "a/" and "/a/b-c d_1/" are valid |
| FolderPath.RejectedPaths | rest-openehr/src/main/java/org/ehrbase/rest/openehr/OpenehrDirectoryController.java:486-497 | examples: paths holding characters such as '.' or ':' are refused |
| Directory.SuccessStatus | rest-openehr/src/main/java/org/ehrbase/rest/openehr/OpenehrDirectoryController.java:471-484 | 201 exactly for POST, 204 exactly for DELETE, 200 exactly for every other method |
| Directory.CreateDirectoryResponse | rest-openehr/src/main/java/org/ehrbase/rest/openehr/OpenehrDirectoryController.java:438-467 | a body exactly when Prefer is `return=representation`, 204 otherwise; ETag and Location exactly when a folder is at hand |
| Directory.ResponseStatusTable | rest-openehr/src/main/java/org/ehrbase/rest/openehr/OpenehrDirectoryController.java:444-451 | the full status table over Prefer and method: 201 only for POST with representation, 204 without a body or for DELETE |
| Directory.ETagUnquotes | rest-openehr/src/main/java/org/ehrbase/rest/openehr/OpenehrDirectoryController.java:457 | the ETag is the version uid in double quotes, and removing them gives the uid back |
| Directory.LocationSuffix | rest-openehr/src/main/java/org/ehrbase/rest/openehr/OpenehrDirectoryController.java:458-461 | the Location ends in `/ehr/<ehrId>/directory/<uid>` |
| Directory.DirectoryStore.LatestDirectoryUid | rest-openehr/src/main/java/org/ehrbase/rest/openehr/OpenehrDirectoryController.java:524-531 | the `%s::%s::%d` text of the directory, the node and the last version; injective in the ordinal by FormatVersionUidInjective |
| Directory.DirectoryStore.VersionConflict | rest-openehr/src/main/java/org/ehrbase/rest/openehr/OpenehrDirectoryController.java:520-546 | the method passes exactly when its If-Match argument is null or equals `dir::node::latest`; otherwise 412 carrying that uid and its location |
| Directory.DirectoryStore.MutationGuard | rest-openehr/src/main/java/org/ehrbase/rest/openehr/OpenehrDirectoryController.java:351-356 | guard order: EHR, then directory, then version; it passes exactly when the directory exists and If-Match is current |
| Directory.DirectoryStore.CreateFolder | rest-openehr/src/main/java/org/ehrbase/rest/openehr/OpenehrDirectoryController.java:132-165 | unknown EHR or duplicate directory: error, store unchanged; else the EHR is linked to the freshly minted directory (an id no directory has had) at version 1, no two EHRs come to share a directory, and the response reports `dir::node::1` |
| Directory.DirectoryStore.UpdateFolder | rest-openehr/src/main/java/org/ehrbase/rest/openehr/OpenehrDirectoryController.java:351-372 | a failed guard leaves the store unchanged; else only this directory's ordinal grows by one, and the response reports the new uid |
| Directory.DirectoryStore.DeleteFolder | rest-openehr/src/main/java/org/ehrbase/rest/openehr/OpenehrDirectoryController.java:415-424 | a failed guard leaves the store unchanged; else only this EHR's link is removed and the response is 204 with no headers |
| Directory.DirectoryStore.GetFolder | rest-openehr/src/main/java/org/ehrbase/rest/openehr/OpenehrDirectoryController.java:198-222 | a malformed path is refused before the EHR check; success exactly when the path is valid, the EHR exists and the folder is found; success is 200 with the folder |
| Directory.DirectoryStore.GetFolderVersionAtTime | rest-openehr/src/main/java/org/ehrbase/rest/openehr/OpenehrDirectoryController.java:254-293 | path, then EHR, then directory link; success exactly when the timestamp lookup (or the latest one, without a time) finds a folder |
| Directory.RacingUpdates | rest-openehr/src/main/java/org/ehrbase/rest/openehr/OpenehrDirectoryController.java:520-546 | of two updates with the same If-Match, the first succeeds when the If-Match names the current version, and once the first succeeds the second gets 412 carrying the first one's new uid, as the If-Match check formats it: exactly one wins |
| Directory.CreateThenUpdate | rest-openehr/src/main/java/org/ehrbase/rest/openehr/OpenehrDirectoryController.java:132-165 | the uid a create reports passes the version check of a following update, given that the folder DTO's uid is the text the If-Match check builds (see "## Left out") |
| Directory.DeleteThenRecreate | rest-openehr/src/main/java/org/ehrbase/rest/openehr/OpenehrDirectoryController.java:415-424 | after a delete, an update is refused for lack of a directory, and a create succeeds again |
| Query.WithFetch | rest-openehr/src/main/java/org/ehrbase/rest/openehr/OpenehrQueryController.java:184-186 | `query + " LIMIT " + value`; stated by AppendedClauseReadsBack |
| Query.WithOffset | rest-openehr/src/main/java/org/ehrbase/rest/openehr/OpenehrQueryController.java:192-194 | `query + " OFFSET " + value`; stated by AppendedClauseReadsBack |
| Query.Paginated | rest-openehr/src/main/java/org/ehrbase/rest/openehr/OpenehrQueryController.java:94-98 | the fetch clause, then the offset clause, each when given; stated by PaginatedClauses |
| Query.AppendedClauseReadsBack | rest-openehr/src/main/java/org/ehrbase/rest/openehr/OpenehrQueryController.java:184-194 | `withFetch` / `withOffset` keep the query as a prefix, then the keyword, then text that `parseInt` reads back as the appended number |
| Query.PaginatedClauses | rest-openehr/src/main/java/org/ehrbase/rest/openehr/OpenehrQueryController.java:94-98 | without fetch and offset the query is untouched (null stays null); otherwise it is `query LIMIT f OFFSET o`, each clause only when given |
| Query.NullQueryWithFetch | rest-openehr/src/main/java/org/ehrbase/rest/openehr/OpenehrQueryController.java:224-231 | a stored query with no text and a fetch becomes the text "null LIMIT f", through `withFetch`'s string concatenation |
| Query.ExecutorCallFor | rest-openehr/src/main/java/org/ehrbase/rest/openehr/OpenehrQueryController.java:106-109 | parameters reach the executor exactly when the map is non-null and non-empty |
| Query.Invoke | rest-openehr/src/main/java/org/ehrbase/rest/openehr/OpenehrQueryController.java:318-333 | the copied parameter map is the one given, and the executor overload follows `ExecutorCallFor` |
| Query.WithOffsetLimit | rest-openehr/src/main/java/org/ehrbase/rest/openehr/OpenehrQueryController.java:335-347 | the result is the query paginated with the body's fetch and offset |
| Query.GetAdhocQuery | rest-openehr/src/main/java/org/ehrbase/rest/openehr/OpenehrQueryController.java:94-120 | pagination first; 400 when there is still no query; otherwise 200 with at least one row, 204 with none |
| Query.PostAdhocQuery | rest-openehr/src/main/java/org/ehrbase/rest/openehr/OpenehrQueryController.java:145-176 | 400 without "q"; otherwise 200 with the paginated query's result, even with zero rows |
| Query.GetStoredQuery | rest-openehr/src/main/java/org/ehrbase/rest/openehr/OpenehrQueryController.java:222-246 | the registry is asked for the given version or LATEST; 200 with the paginated text's result, tagged `name/version` |
| Query.PostStoredQuery | rest-openehr/src/main/java/org/ehrbase/rest/openehr/OpenehrQueryController.java:275-305 | 400 naming `name/version-or-LATEST` when there is no text; pagination and parameters only from a non-empty body |
| VersionedEhrStatus.EhrCheckedFirst | rest-openehr/src/main/java/org/ehrbase/rest/openehr/OpenehrVersionedEhrStatusController.java:62-67 | for all four endpoints (also lines 95-97, 129-131 and 177-179), "EHR not found" is returned exactly when the EHR does not exist |
| VersionedEhrStatus.RetrieveVersionedEhrStatus | rest-openehr/src/main/java/org/ehrbase/rest/openehr/OpenehrVersionedEhrStatusController.java:62-76 | success exactly when the EHR exists, with its VERSIONED_EHR_STATUS |
| VersionedEhrStatus.RetrieveRevisionHistory | rest-openehr/src/main/java/org/ehrbase/rest/openehr/OpenehrVersionedEhrStatusController.java:92-106 | success exactly when the EHR exists, with its revision history |
| VersionedEhrStatus.ParseFormattedStatusUid | rest-openehr/src/main/java/org/ehrbase/rest/openehr/OpenehrVersionedEhrStatusController.java:184-189 | `uuid::node::n` parses back to `uuid` and `n` for every 32-bit `n` |
| VersionedEhrStatus.ExtraSegmentsIgnored | rest-openehr/src/main/java/org/ehrbase/rest/openehr/OpenehrVersionedEhrStatusController.java:185-186 | a fourth `::` segment does not change the parse |
| VersionedEhrStatus.BareObjectIdRefused | rest-openehr/src/main/java/org/ehrbase/rest/openehr/OpenehrVersionedEhrStatusController.java:184-189 | a bare uuid has one segment, so segment 2 is missing |
| VersionedEhrStatus.TwoSegmentUidRefused | rest-openehr/src/main/java/org/ehrbase/rest/openehr/OpenehrVersionedEhrStatusController.java:185-186 | `uuid::node` with no ordinal has two segments, so segment 2 is missing (length 2) |
| VersionedEhrStatus.ParseStatusVersionUid | rest-openehr/src/main/java/org/ehrbase/rest/openehr/OpenehrVersionedEhrStatusController.java:184-189 | uuid from segment 0 and ordinal from segment 2, with the first exception; stated by ParseFormattedStatusUid, ExtraSegmentsIgnored, BareObjectIdRefused, TwoSegmentUidRefused, NonIntegerOrdinalRefused and NonUuidObjectIdRefused |
| VersionedEhrStatus.NonIntegerOrdinalRefused | rest-openehr/src/main/java/org/ehrbase/rest/openehr/OpenehrVersionedEhrStatusController.java:186-189 | a third segment that is no 32-bit integer is refused with `parseInt`'s exception |
| VersionedEhrStatus.NonUuidObjectIdRefused | rest-openehr/src/main/java/org/ehrbase/rest/openehr/OpenehrVersionedEhrStatusController.java:185-189 | a first segment that is no uuid is refused before the ordinal is read |
| VersionedEhrStatus.VersionWithContribution | rest-openehr/src/main/java/org/ehrbase/rest/openehr/OpenehrVersionedEhrStatusController.java:141-149 | an absent version gives exactly "Couldn't retrieve EhrStatus with given parameters"; success exactly when the version, its contribution id and the contribution all exist |
| VersionedEhrStatus.LatestOrdinal | rest-openehr/src/main/java/org/ehrbase/rest/openehr/OpenehrVersionedEhrStatusController.java:138 | the third `::` segment of the latest uid through `parseInt`, its exceptions uncaught; stated by LatestOrdinalOfFormattedUid and ByTimeLatestUidWithoutOrdinal |
| VersionedEhrStatus.RetrieveVersionByTime | rest-openehr/src/main/java/org/ehrbase/rest/openehr/OpenehrVersionedEhrStatusController.java:121-155 | an absent EHR is "No EHR with this ID can be found"; with a time the version is the timestamp lookup's, fetched with its contribution (the latest-uid case in ByTimeOrdinalChoice) |
| VersionedEhrStatus.RetrieveVersionByUid | rest-openehr/src/main/java/org/ehrbase/rest/openehr/OpenehrVersionedEhrStatusController.java:169-201 | an absent EHR is "No EHR with this ID can be found."; a malformed uid is InvalidApiParameter with the exception's text; success only for a parsed uid with ordinal at least 1 and a known status object |
| VersionedEhrStatus.LatestOrdinalOfFormattedUid | rest-openehr/src/main/java/org/ehrbase/rest/openehr/OpenehrVersionedEhrStatusController.java:138 | the third segment of a formatted latest uid reads back as its ordinal |
| VersionedEhrStatus.RetrieveFormattedUid | rest-openehr/src/main/java/org/ehrbase/rest/openehr/OpenehrVersionedEhrStatusController.java:184-201 | for a well-formed uid: ordinal < 1 gives "Version can't be negative.", then an unknown status gives ObjectNotFound("ehr_status"), and otherwise the named version is fetched |
| VersionedEhrStatus.BareObjectIdUidRefused | rest-openehr/src/main/java/org/ehrbase/rest/openehr/OpenehrVersionedEhrStatusController.java:184-189 | a uid with no "::" gets InvalidApiParameter "VERSION UID parameter has wrong format: …" |
| VersionedEhrStatus.ByTimeOrdinalChoice | rest-openehr/src/main/java/org/ehrbase/rest/openehr/OpenehrVersionedEhrStatusController.java:133-141 | with a time the ordinal comes from the timestamp lookup, without one from the latest uid's third segment; the version is looked up under the EHR's status object |
| VersionedEhrStatus.ByTimeLatestUidWithoutOrdinal | rest-openehr/src/main/java/org/ehrbase/rest/openehr/OpenehrVersionedEhrStatusController.java:138 | a latest uid with no "::" makes the endpoint fail with an uncaught runtime exception |
| EhrScapeComposition.ToUuid | rest-ehr-scape/src/main/java/org/ehrbase/rest/ehrscape/controller/CompositionController.java:182-183 | `UUID.fromString` succeeds exactly on uuid text, and a canonical uuid comes back unchanged |
| EhrScapeComposition.CompositionUid | rest-ehr-scape/src/main/java/org/ehrbase/rest/ehrscape/controller/CompositionController.java:180-184 | the whole id without "::", else the text before the first "::", through `UUID.fromString`; stated by VersionUidRoundTrip and BareUuidId |
| EhrScapeComposition.CompositionVersion | rest-ehr-scape/src/main/java/org/ehrbase/rest/ehrscape/controller/CompositionController.java:186-190 | 1 without "::", else `Integer.valueOf` of the text after the last "::"; stated by VersionUidRoundTrip and BareUuidId |
| EhrScapeComposition.VersionUidRoundTrip | rest-ehr-scape/src/main/java/org/ehrbase/rest/ehrscape/controller/CompositionController.java:180-190 | `getCompositionUid` and `getCompositionVersion` of `uuid::node::n` give `uuid` and `n`, whatever the node text is |
| EhrScapeComposition.BareUuidId | rest-ehr-scape/src/main/java/org/ehrbase/rest/ehrscape/controller/CompositionController.java:180-190 | a bare uuid is its own uid and has version 1 |
| EhrScapeComposition.BuildMeta | rest-ehr-scape/src/main/java/org/ehrbase/rest/ehrscape/controller/CompositionController.java:172-178 | the href is the base URL, then the composition path, then the uid |
| EhrScapeComposition.TemplateCheck | rest-ehr-scape/src/main/java/org/ehrbase/rest/ehrscape/controller/CompositionController.java:64-66 | refused exactly for FLAT or ECISFLAT with a null or empty template id, with the message naming the format |
| EhrScapeComposition.EhrIdOf | rest-ehr-scape/src/main/java/org/ehrbase/rest/ehrscape/controller/CompositionController.java:156-163 | the EHR id is read from version 1; "Invalid composition ID." exactly when version 1 is absent |
| EhrScapeComposition.LatestVersionId | rest-ehr-scape/src/main/java/org/ehrbase/rest/ehrscape/controller/CompositionController.java:165-170 | the composition's uuid, this node and the last version number; stated by UpdateTargetsLatestVersion and DeleteTargetsLatestVersion |
| EhrScapeComposition.RequestFor | rest-ehr-scape/src/main/java/org/ehrbase/rest/ehrscape/controller/CompositionController.java:87-95 | with "::" the version is read before the uuid, else the uuid alone with a null version; stated by RequestForBareUuid, RequestForVersionUid and VersionCheckedBeforeUuid |
| EhrScapeComposition.CreateComposition | rest-ehr-scape/src/main/java/org/ehrbase/rest/ehrscape/controller/CompositionController.java:56-81 | a failed template check is the answer; a success carries the CREATE action and the meta of its own uid (the uid itself in CreatedUidRoundTrip) |
| EhrScapeComposition.GetComposition | rest-ehr-scape/src/main/java/org/ehrbase/rest/ehrscape/controller/CompositionController.java:84-115 | an unreadable id is the id's own error; a found composition carries RETRIEVE, the requested format and the meta of its uid |
| EhrScapeComposition.UpdateComposition | rest-ehr-scape/src/main/java/org/ehrbase/rest/ehrscape/controller/CompositionController.java:117-141 | a failed template check is the answer; a success carries UPDATE and needs a version 1 to read the EHR from |
| EhrScapeComposition.DeleteComposition | rest-ehr-scape/src/main/java/org/ehrbase/rest/ehrscape/controller/CompositionController.java:143-154 | success exactly when version 1 exists; the latest version id is the target and the answer is DELETE with the bare composition path |
| EhrScapeComposition.CreatedUidRoundTrip | rest-ehr-scape/src/main/java/org/ehrbase/rest/ehrscape/controller/CompositionController.java:68-80 | a created uid is `uuid::node::1`, its href is that uid under the composition path, and it parses back to the new uuid and version 1 |
| EhrScapeComposition.FlatFormatNeedsTemplate | rest-ehr-scape/src/main/java/org/ehrbase/rest/ehrscape/controller/CompositionController.java:123-125 | create and update (also lines 64-66) both refuse a flat format without a template id, whatever the service does |
| EhrScapeComposition.TemplatePresentReachesService | rest-ehr-scape/src/main/java/org/ehrbase/rest/ehrscape/controller/CompositionController.java:68-74 | past the template check, create succeeds exactly when the service creates the composition |
| EhrScapeComposition.RequestForBareUuid | rest-ehr-scape/src/main/java/org/ehrbase/rest/ehrscape/controller/CompositionController.java:92-96 | a bare uuid is retrieved with a null version, meaning the latest |
| EhrScapeComposition.RequestForVersionUid | rest-ehr-scape/src/main/java/org/ehrbase/rest/ehrscape/controller/CompositionController.java:89-96 | `uuid::node::n` is retrieved as `uuid` at version `n` |
| EhrScapeComposition.GetCompositionOutcome | rest-ehr-scape/src/main/java/org/ehrbase/rest/ehrscape/controller/CompositionController.java:96-114 | 404 exactly when retrieve finds nothing; otherwise 200 with the uuid, EHR id, template id and href |
| EhrScapeComposition.VersionCheckedBeforeUuid | rest-ehr-scape/src/main/java/org/ehrbase/rest/ehrscape/controller/CompositionController.java:89-91 | in an id with "::", a bad version is reported even when the uuid is bad too |
| EhrScapeComposition.UpdateTargetsLatestVersion | rest-ehr-scape/src/main/java/org/ehrbase/rest/ehrscape/controller/CompositionController.java:127-140 | update targets `uuid::node::last` under the EHR of version 1; that id reads back as the uuid and the last version number |
| EhrScapeComposition.DeleteTargetsLatestVersion | rest-ehr-scape/src/main/java/org/ehrbase/rest/ehrscape/controller/CompositionController.java:147-153 | delete asks for `uuid::node::last` under the EHR of version 1 and answers with the bare composition path; it fails exactly when version 1 is absent |

## Where the code and its API documentation differ

This model follows the code in each case.

- Directory reads:
  - The `@ApiResponse` annotations of `getFolder` (OpenehrDirectoryController.java:182-185) and `getFolderVersionAtTime` (lines 239-242) document 204 "No Content" when no folder is found.
  - Both methods throw ObjectNotFound instead (lines 212-220 and 286-291).
  - `getFolderVersionAtTime` also throws ObjectNotFound (lines 264-272) when the EHR has no directory.
- `postAdhocQuery` is documented with 204 for an empty result (OpenehrQueryController.java:133). It answers 200 for zero rows (lines 170-176). Only the GET endpoint answers 204.

## Left out

- Spring and Swagger plumbing is left out: annotations, binding, content negotiation (`resolveContentType`), and building `ResponseEntity` beyond status, body, ETag and Location.
- Directory.CreateDirectoryResponse: Location is the raw concatenation. `encodePath` is not modelled, and the base URL (`getBaseEnvLinkURL`) is an opaque string.
- The Last-Modified header (`DateTime.now()`) is left out because it reads the clock.
- Directory.DirectoryStore.LatestDirectoryUid: the ETag and version uid are built with `String.format("%s::%s::%d", ...)`, and `%d` writes digits in the JVM's default format locale. The model, through `VersionUid.FormatVersionUid` and `JavaText.IntToString`, assumes a locale with ASCII digits 0-9. Under a locale such as `ar-EG` or `fa`, version 1 would be written with a non-ASCII digit, and an If-Match sent with ASCII digits would then be refused with 412. Locales are not modelled because the model has no JVM configuration.
- JavaText.IntToString: models `Integer.toString`, which always writes ASCII digits. It stands for `%d` only under a default format locale with ASCII digits (see the LatestDirectoryUid line above).
- VersionUid.FormatVersionUid: writes the ordinal with ASCII digits, so it matches `String.format("%s::%s::%d", ...)` only under a default format locale with ASCII digits (see the LatestDirectoryUid line above).
- Gson decoding of query bodies is left out. The decoded body is an input (`QueryRequestBody`, with the decoded `fetch` / `offset` numbers).
- `double2int` (`Double.valueOf(...).intValue()`) is not modelled. Fetch and offset are 32-bit ints.
- The `NullPointerException` of `withOffsetLimit` on a JSON `null` fetch/offset value is not modelled.
- Directory.DirectoryStore.VersionConflict: `checkDirectoryVersionConflicts` passes a null If-Match (line 534), and the model keeps that case. `updateFolder` and `deleteFolder` declare the If-Match header required (lines 346 and 410), so Spring answers 400 before the method runs on a request without one.
- Query.GetAdhocQuery: its `q` parameter is required (OpenehrQueryController.java:87), so Spring refuses a GET without it before the method runs. The model's null-query case, and the "null LIMIT f" text of Query.NullQueryWithFetch, are about the method; a null query text reaches `withFetch` over HTTP only through Query.GetStoredQuery.
- Uuids.UuidFromString accepts only the 8-4-4-4-12 shape. Java's `UUID.fromString` is more lenient about group lengths. The exact message texts of `UUID.fromString` are not modelled either.
- EhrScapeComposition.ToUuid has the same strict 8-4-4-4-12 shape, so a composition id whose uuid part Java would accept in a shorter form is refused by the model.
- JavaText.ParseInt accepts ASCII digits only. Java also accepts other Unicode decimal digits.
- VersionedEhrStatus.FaultDetail words the exception messages as JDK 11 and later do. The exact texts vary between JDK versions.
- Directory.DirectoryStore.CreateFolder: the store's effects are an assumption about the folder service, which is not part of this model. The folder service mints a new directory id; the model takes that id as an argument and requires that no directory has had it before. Create links the new directory with ordinal 1, update adds one to the ordinal, and delete only removes the link. The uid that create and update report comes, in the source, from the folder DTO that the folder service returns: `folderService.get(...).getUid().toString()` at OpenehrDirectoryController.java:156, :370 and :455. That value is the ETag and the end of the Location. The If-Match check at :522-531 builds its own text from the directory id, the nodename from `ehrService.getServerConfig()` and `getLastVersionNumber`. The model assumes the DTO uid is always `dir::<that nodename>::<getLastVersionNumber>`, and reports `FormatVersionUid(dir, nodeName, n)` from the store. The source does not guarantee that the two agree. Directory.CreateThenUpdate and Directory.RacingUpdates depend on this assumption, and so do the reported uids in the CreateFolder and UpdateFolder rows.
- Directory.CreateThenUpdate: holds only under the assumption in the CreateFolder line above, that the folder DTO's uid equals the text the If-Match check builds. If the folder service reported a different node or version text, the created uid would get 412.
- Directory.RacingUpdates: the "exactly one wins" part is about the store and holds regardless. The claim that the 412 carries the first update's new uid relies on the assumption in the CreateFolder line above.
- InternalServer branches that only a failing folder service can reach are left out: "Error creating folder.", "Unexpected folder DTO ID type." and "could be persisted but not fetched again".
- Directory.DirectoryStore.UpdateFolder: the version ordinal is an unbounded integer. The 32-bit overflow of `getLastVersionNumber` is not modelled.
- Directory.DirectoryStore.GetFolder: the folder-tree walk by path is a lookup parameter. `FolderService` is not part of this model.
- The check-then-act race between the version check and the update is left out. Each method runs atomically; concurrency is not modelled.
- Authorization (`@PreAuthorize`, `@PostAuthorize`) and the audit request attributes are left out.
- `getEhrUuid` is left out. Endpoints take an already parsed EHR id, because `BaseController` is not part of this model.
- `StatusController` is left out: it only copies strings out of a service.
- Service results are opaque values: `getVersionedEhrStatus`, `getRevisionHistoryOfVersionedEhrStatus`, `serialize` and `buildComposition`. Exceptions those services might throw are not modelled.
- The unchecked `int` conversion of `getCompositionVersion`'s `Integer` is left out. Its value is the parsed one.
- Query.GetAdhocQuery: Spring's copying of every request parameter, including `q`, `fetch` and `offset`, into the `queryParameters` map is not modelled. The map is an input.
- Query.GetStoredQuery: the same holds for its `queryParameter` map (OpenehrQueryController.java:214), which also receives `offset` and `fetch`. The map is an input.
