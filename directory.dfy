/**
 * The openEHR /ehr/{ehr_id}/directory endpoints: guards, optimistic
 * concurrency on the directory's If-Match header, lifecycle of the
 * EHR -> directory link, and the response (status, body, ETag, Location).
 *
 * The EHR and folder services are a store object: the set of EHRs that
 * exist, the directory id linked to each EHR, and the latest version
 * ordinal of each directory. Folder lookups by id, time or path are
 * parameters (the folder service's tree walk is not modelled).
 */
module Directory {
  import opened Wrappers
  import opened Api
  import opened Uuids
  import opened VersionUid
  import opened FolderPath

  const ReturnRepresentation: string := "return=representation"
  const ReturnMinimal: string := "return=minimal"

  /** Spring's HttpMethod. */
  datatype HttpMethod = GET | HEAD | POST | PUT | PATCH | DELETE | OPTIONS | TRACE

  /** A folder tree as the request body carries it. */
  datatype Folder = Folder(name: string, items: seq<string>, folders: seq<Folder>)

  /** What the folder service hands back: the version uid and the tree. */
  datatype FolderDto = FolderDto(uid: string, folder: Folder)

  /** The parts of the ResponseEntity the controller decides. */
  datatype DirectoryResponse = DirectoryResponse(
    status: int, body: Option<FolderDto>, etag: Option<string>, location: Option<string>)

  /** getSuccessStatus: 201 for POST, 204 for DELETE, 200 otherwise. */
  function SuccessStatus(httpMethod: HttpMethod): (status: int)
    ensures status == 201 <==> httpMethod == POST
    ensures status == 204 <==> httpMethod == DELETE
    ensures status == 200 <==> httpMethod != POST && httpMethod != DELETE
  {
    match httpMethod
    case POST => 201
    case DELETE => 204
    case _ => 200
  }

  function DirectoryLocation(baseUrl: string, ehrId: Uuid, versionUid: string): string {
    baseUrl + "/rest/openehr/v1/ehr/" + ehrId + "/directory/" + versionUid
  }

  function Quoted(s: string): string { "\"" + s + "\"" }

  /**
   * createDirectoryResponse. A body only when Prefer is exactly
   * return=representation (status by method), otherwise 204 and no body;
   * ETag and Location whenever a folder is at hand.
   */
  function CreateDirectoryResponse(httpMethod: HttpMethod, prefer: Option<string>, folder: Option<FolderDto>,
                                   ehrId: Uuid, baseUrl: string): (r: DirectoryResponse)
    requires prefer == Some(ReturnRepresentation) ==> folder.Some?
    ensures r.body.Some? <==> prefer == Some(ReturnRepresentation)
    ensures r.body.Some? ==> r.body == folder && r.status == SuccessStatus(httpMethod)
    ensures r.body.None? ==> r.status == 204
    ensures r.etag.Some? <==> folder.Some?
    ensures r.location.Some? <==> folder.Some?
    ensures folder.Some? ==> r.etag == Some(Quoted(folder.value.uid))
    ensures folder.Some? ==> r.location == Some(DirectoryLocation(baseUrl, ehrId, folder.value.uid))
  {
    var body := if prefer == Some(ReturnRepresentation) then folder else None;
    var status := if prefer == Some(ReturnRepresentation) then SuccessStatus(httpMethod) else 204;
    match folder
    case Some(dto) =>
      DirectoryResponse(status, body, Some(Quoted(dto.uid)), Some(DirectoryLocation(baseUrl, ehrId, dto.uid)))
    case None =>
      DirectoryResponse(status, body, None, None)
  }

  /** The status is 201 only for a POST that asked for the representation, and 204 whenever no body is sent. */
  lemma ResponseStatusTable(httpMethod: HttpMethod, prefer: Option<string>, folder: Option<FolderDto>, ehrId: Uuid, baseUrl: string)
    requires prefer == Some(ReturnRepresentation) ==> folder.Some?
    ensures var r := CreateDirectoryResponse(httpMethod, prefer, folder, ehrId, baseUrl);
      && (r.status == 201 <==> prefer == Some(ReturnRepresentation) && httpMethod == POST)
      && (r.status == 200 <==> prefer == Some(ReturnRepresentation) && httpMethod != POST && httpMethod != DELETE)
      && (r.status == 204 <==> prefer != Some(ReturnRepresentation) || httpMethod == DELETE)
  {
  }

  /** The ETag is the folder uid in double quotes: stripping them gives the uid back. */
  lemma ETagUnquotes(uid: string)
    ensures var e := Quoted(uid); |e| == |uid| + 2 && e[0] == '"' && e[|e| - 1] == '"' && e[1..|e| - 1] == uid
  {
  }

  /** The Location ends in /ehr/<ehrId>/directory/<uid>. */
  lemma LocationSuffix(baseUrl: string, ehrId: Uuid, uid: string)
    ensures var loc := DirectoryLocation(baseUrl, ehrId, uid);
      var tail := "/ehr/" + ehrId + "/directory/" + uid;
      |tail| <= |loc| && loc[|loc| - |tail|..] == tail
  {
  }

  function MalformedPathError(): ApiError {
    IllegalArgument("Value for path is malformed. Expecting a unix like notation, e.g. '/episodes/a/b/c'")
  }

  function EhrNotFoundError(ehrId: Uuid): ApiError {
    ObjectNotFound("DIRECTORY", "EHR with id " + ehrId + " not found")
  }

  function NoDirectoryError(ehrId: Uuid): ApiError {
    PreconditionFailedNoVersion("EHR with id " + ehrId + " does not contain a directory. Maybe it has been deleted?")
  }

  function DuplicateDirectoryError(ehrId: Uuid): ApiError {
    StateConflict("EHR with id " + ehrId + " already contains a directory.")
  }

  function FolderNotFoundError(folderId: string): ApiError {
    ObjectNotFound("DIRECTORY", "Folder with id " + folderId + " does not exist.")
  }

  function NoStoredDirectoryError(ehrId: Uuid): ApiError {
    ObjectNotFound("DIRECTORY", "There is no directory stored for EHR with id " + ehrId + ". Maybe it has been deleted?")
  }

  function NoFolderAtTimeError(ehrId: Uuid): ApiError {
    ObjectNotFound("folder", "The FOLDER for ehrId " + ehrId + " does not exist.")
  }

  /** A path parameter that is present and fails isValidPath. */
  predicate PathIsMalformed(path: Option<string>) {
    path.Some? && !IsValidPath(path.value)
  }

  /** The folder a time-or-latest request reads: by timestamp when one is given, else the latest. */
  function ResolveFolder(dir: Uuid, versionAtTime: Option<int>, path: Option<string>,
                         byTime: (Uuid, int, Option<string>) -> Option<FolderDto>,
                         latest: (Uuid, Option<string>) -> Option<FolderDto>): Option<FolderDto>
  {
    if versionAtTime.Some? then byTime(dir, versionAtTime.value, path) else latest(dir, path)
  }

  class DirectoryStore {
    /** EhrService.doesEhrExist */
    const ehrs: set<Uuid>
    /** The server's node name, EhrService.getServerConfig().getNodename() */
    const nodeName: string
    /** getBaseEnvLinkURL() */
    const baseUrl: string
    /** EhrService.getDirectoryId: the directory linked to each EHR (absent = null) */
    var directoryOf: map<Uuid, Uuid>
    /** FolderService.getLastVersionNumber of each directory ever created */
    var lastVersion: map<Uuid, int>

    /**
     * Every linked directory belongs to an existing EHR and has at least one
     * version, and no two EHRs share a directory.
     */
    ghost predicate Valid()
      reads this
    {
      && (forall e :: e in directoryOf ==>
            e in ehrs && directoryOf[e] in lastVersion && lastVersion[directoryOf[e]] >= 1)
      && (forall e1, e2 :: e1 in directoryOf && e2 in directoryOf && e1 != e2 ==>
            directoryOf[e1] != directoryOf[e2])
    }

    constructor (ehrs: set<Uuid>, nodeName: string, baseUrl: string)
      ensures Valid()
      ensures this.ehrs == ehrs && this.nodeName == nodeName && this.baseUrl == baseUrl
      ensures directoryOf == map[] && lastVersion == map[]
    {
      this.ehrs := ehrs;
      this.nodeName := nodeName;
      this.baseUrl := baseUrl;
      directoryOf := map[];
      lastVersion := map[];
    }

    /** The latest directory version uid, built as text: dir::node::latest. */
    function LatestDirectoryUid(ehrId: Uuid): string
      reads this
      requires Valid() && ehrId in directoryOf
    {
      FormatVersionUid(directoryOf[ehrId], nodeName, lastVersion[directoryOf[ehrId]])
    }

    /**
     * checkDirectoryVersionConflicts: passes (None) exactly when If-Match is
     * absent or its text equals the latest uid; otherwise a precondition
     * failure carrying that uid and its location.
     */
    function VersionConflict(ifMatch: Option<string>, ehrId: Uuid): (g: Option<ApiError>)
      reads this
      requires Valid() && ehrId in directoryOf
      ensures g.None? <==> (ifMatch.None? || ifMatch.value == LatestDirectoryUid(ehrId))
      ensures g.Some? ==> g.value == PreconditionFailed(
        "If-Match version_uid does not match latest version.",
        LatestDirectoryUid(ehrId), DirectoryLocation(baseUrl, ehrId, LatestDirectoryUid(ehrId)))
    {
      var latest := FormatVersionUid(directoryOf[ehrId], nodeName, lastVersion[directoryOf[ehrId]]);
      if ifMatch.Some? && ifMatch.value != latest then
        Some(PreconditionFailed("If-Match version_uid does not match latest version.",
                                latest, DirectoryLocation(baseUrl, ehrId, latest)))
      else None
    }

    /** The guards updateFolder and deleteFolder run, in their order. */
    function MutationGuard(ifMatch: Option<string>, ehrId: Uuid): (g: Option<ApiError>)
      reads this
      requires Valid()
      ensures ehrId !in ehrs ==> g == Some(EhrNotFoundError(ehrId))
      ensures ehrId in ehrs && ehrId !in directoryOf ==> g == Some(NoDirectoryError(ehrId))
      ensures ehrId in directoryOf ==> g == VersionConflict(ifMatch, ehrId)
      ensures g.None? <==> ehrId in directoryOf && (ifMatch.None? || ifMatch.value == LatestDirectoryUid(ehrId))
    {
      if ehrId !in ehrs then Some(EhrNotFoundError(ehrId))
      else if ehrId !in directoryOf then Some(NoDirectoryError(ehrId))
      else VersionConflict(ifMatch, ehrId)
    }

    /**
     * createFolder. The folder service mints `newDir`, an id no directory
     * has had before, and links it to the EHR with version 1; a second
     * directory for the same EHR is refused.
     */
    method CreateFolder(ehrId: Uuid, prefer: string, folder: Folder, newDir: Uuid) returns (r: Result<DirectoryResponse>)
      requires Valid()
      requires newDir !in lastVersion
      modifies this
      ensures Valid()
      ensures ehrId !in ehrs ==> r == Err(EhrNotFoundError(ehrId)) && unchanged(this)
      ensures ehrId in ehrs && ehrId in old(directoryOf) ==>
        r == Err(DuplicateDirectoryError(ehrId)) && unchanged(this)
      ensures ehrId in ehrs && ehrId !in old(directoryOf) ==>
        && directoryOf == old(directoryOf)[ehrId := newDir]
        && lastVersion == old(lastVersion)[newDir := 1]
        && r == Ok(CreateDirectoryResponse(POST, Some(prefer),
                     Some(FolderDto(FormatVersionUid(newDir, nodeName, 1), folder)), ehrId, baseUrl))
    {
      if ehrId !in ehrs {
        return Err(EhrNotFoundError(ehrId));
      }
      if ehrId in directoryOf {
        return Err(DuplicateDirectoryError(ehrId));
      }
      directoryOf := directoryOf[ehrId := newDir];
      lastVersion := lastVersion[newDir := 1];
      var created := FolderDto(FormatVersionUid(newDir, nodeName, 1), folder);
      r := Ok(CreateDirectoryResponse(POST, Some(prefer), Some(created), ehrId, baseUrl));
    }

    /**
     * updateFolder: EHR exists, directory exists, If-Match is current; only
     * then the folder service stores the tree as the next version.
     */
    method UpdateFolder(ehrId: Uuid, ifMatch: Option<string>, prefer: string, folder: Folder)
      returns (r: Result<DirectoryResponse>)
      requires Valid()
      modifies this
      ensures Valid()
      ensures old(MutationGuard(ifMatch, ehrId)).Some? ==>
        r == Err(old(MutationGuard(ifMatch, ehrId)).value) && unchanged(this)
      ensures old(MutationGuard(ifMatch, ehrId)).None? ==>
        var dir := old(directoryOf)[ehrId];
        var next := old(lastVersion)[dir] + 1;
        && directoryOf == old(directoryOf)
        && lastVersion == old(lastVersion)[dir := next]
        && r == Ok(CreateDirectoryResponse(PUT, Some(prefer),
                     Some(FolderDto(FormatVersionUid(dir, nodeName, next), folder)), ehrId, baseUrl))
    {
      var guard := MutationGuard(ifMatch, ehrId);
      if guard.Some? {
        return Err(guard.value);
      }
      var dir := directoryOf[ehrId];
      var next := lastVersion[dir] + 1;
      lastVersion := lastVersion[dir := next];
      var updated := FolderDto(FormatVersionUid(dir, nodeName, next), folder);
      r := Ok(CreateDirectoryResponse(PUT, Some(prefer), Some(updated), ehrId, baseUrl));
    }

    /**
     * deleteFolder: same guards as update; then the EHR's directory link is
     * cleared (the directory's versions stay in the history).
     */
    method DeleteFolder(ehrId: Uuid, ifMatch: Option<string>) returns (r: Result<DirectoryResponse>)
      requires Valid()
      modifies this
      ensures Valid()
      ensures old(MutationGuard(ifMatch, ehrId)).Some? ==>
        r == Err(old(MutationGuard(ifMatch, ehrId)).value) && unchanged(this)
      ensures old(MutationGuard(ifMatch, ehrId)).None? ==>
        && ehrId !in directoryOf
        && directoryOf == old(directoryOf) - {ehrId}
        && lastVersion == old(lastVersion)
        && r == Ok(DirectoryResponse(204, None, None, None))
    {
      var guard := MutationGuard(ifMatch, ehrId);
      if guard.Some? {
        return Err(guard.value);
      }
      directoryOf := directoryOf - {ehrId};
      r := Ok(CreateDirectoryResponse(DELETE, None, None, ehrId, baseUrl));
    }

    /**
     * getFolder: a malformed path fails before anything is looked up; then
     * the EHR must exist and `lookup` (FolderService.get by version uid and
     * path) must find a folder.
     */
    function GetFolder(ehrId: Uuid, folderId: string, path: Option<string>,
                       lookup: (string, Option<string>) -> Option<FolderDto>): (r: Result<DirectoryResponse>)
      reads this
      ensures PathIsMalformed(path) ==> r == Err(MalformedPathError())
      ensures !PathIsMalformed(path) && ehrId !in ehrs ==> r == Err(EhrNotFoundError(ehrId))
      ensures r.Ok? <==> !PathIsMalformed(path) && ehrId in ehrs && lookup(folderId, path).Some?
      ensures r.Ok? ==> r.value.status == 200 && r.value.body == lookup(folderId, path)
    {
      if PathIsMalformed(path) then Err(MalformedPathError())
      else if ehrId !in ehrs then Err(EhrNotFoundError(ehrId))
      else match lookup(folderId, path)
        case None => Err(FolderNotFoundError(folderId))
        case Some(dto) => Ok(CreateDirectoryResponse(GET, Some(ReturnRepresentation), Some(dto), ehrId, baseUrl))
    }

    /**
     * getFolderVersionAtTime: path check, EHR check, the EHR's directory
     * link, then the folder active at `versionAtTime` (`byTime`) or the
     * latest one (`latest`), narrowed by the path.
     */
    function GetFolderVersionAtTime(ehrId: Uuid, versionAtTime: Option<int>, path: Option<string>,
                                    byTime: (Uuid, int, Option<string>) -> Option<FolderDto>,
                                    latest: (Uuid, Option<string>) -> Option<FolderDto>): (r: Result<DirectoryResponse>)
      reads this
      ensures PathIsMalformed(path) ==> r == Err(MalformedPathError())
      ensures !PathIsMalformed(path) && ehrId !in ehrs ==> r == Err(EhrNotFoundError(ehrId))
      ensures !PathIsMalformed(path) && ehrId in ehrs && ehrId !in directoryOf ==>
        r == Err(NoStoredDirectoryError(ehrId))
      ensures r.Ok? <==> && !PathIsMalformed(path) && ehrId in ehrs && ehrId in directoryOf
                         && ResolveFolder(directoryOf[ehrId], versionAtTime, path, byTime, latest).Some?
      ensures r.Ok? ==> && r.value.status == 200
                        && r.value.body == ResolveFolder(directoryOf[ehrId], versionAtTime, path, byTime, latest)
    {
      if PathIsMalformed(path) then Err(MalformedPathError())
      else if ehrId !in ehrs then Err(EhrNotFoundError(ehrId))
      else if ehrId !in directoryOf then
        Err(NoStoredDirectoryError(ehrId))
      else
        var dir := directoryOf[ehrId];
        match ResolveFolder(dir, versionAtTime, path, byTime, latest)
        case None => Err(NoFolderAtTimeError(ehrId))
        case Some(dto) => Ok(CreateDirectoryResponse(GET, Some(ReturnRepresentation), Some(dto), ehrId, baseUrl))
    }
  }

  /**
   * Two clients update with the same If-Match: when it names the current
   * version the first succeeds, and once the first succeeds the second is
   * refused with the uid the first one produced, so exactly one wins.
   */
  method RacingUpdates(store: DirectoryStore, ehrId: Uuid, ifMatch: string, prefer: string, f1: Folder, f2: Folder)
    returns (first: Result<DirectoryResponse>, second: Result<DirectoryResponse>)
    requires store.Valid()
    modifies store
    ensures store.Valid()
    ensures ehrId in old(store.directoryOf) && ifMatch == old(store.LatestDirectoryUid(ehrId)) ==> first.Ok?
    ensures first.Ok? ==> && ehrId in store.directoryOf
                          && second == Err(PreconditionFailed(
                               "If-Match version_uid does not match latest version.",
                               store.LatestDirectoryUid(ehrId),
                               DirectoryLocation(store.baseUrl, ehrId, store.LatestDirectoryUid(ehrId))))
  {
    first := store.UpdateFolder(ehrId, Some(ifMatch), prefer, f1);
    if first.Ok? {
      var dir := store.directoryOf[ehrId];
      if ifMatch == store.LatestDirectoryUid(ehrId) {
        FormatVersionUidInjective(dir, store.nodeName, store.lastVersion[dir] - 1, store.lastVersion[dir]);
      }
    }
    second := store.UpdateFolder(ehrId, Some(ifMatch), prefer, f2);
  }

  /**
   * The uid a successful create reports is the one the conflict check
   * builds as text, so an update naming it passes. The store reports the
   * uid in the form the conflict check formats, which assumes that the
   * folder service's own uid for the new version has the same text.
   */
  method CreateThenUpdate(store: DirectoryStore, ehrId: Uuid, folder: Folder, newDir: Uuid, next: Folder)
    returns (created: Result<DirectoryResponse>, updated: Result<DirectoryResponse>)
    requires store.Valid() && newDir !in store.lastVersion
    modifies store
    ensures store.Valid()
    ensures created.Ok? ==> created.value.status == 201 && created.value.body.Some? && updated.Ok?
  {
    created := store.CreateFolder(ehrId, ReturnRepresentation, folder, newDir);
    updated := Err(InternalServer("no create"));
    if created.Ok? {
      var uid := created.value.body.value.uid;
      updated := store.UpdateFolder(ehrId, Some(uid), ReturnRepresentation, next);
    }
  }

  /** After a delete the link is gone: a further update is refused, and a new directory can be created. */
  method DeleteThenRecreate(store: DirectoryStore, ehrId: Uuid, ifMatch: string, folder: Folder, newDir: Uuid)
    returns (deleted: Result<DirectoryResponse>, again: Result<DirectoryResponse>, recreated: Result<DirectoryResponse>)
    requires store.Valid() && newDir !in store.lastVersion
    modifies store
    ensures store.Valid()
    ensures deleted.Ok? ==> again == Err(NoDirectoryError(ehrId)) && recreated.Ok?
  {
    deleted := store.DeleteFolder(ehrId, Some(ifMatch));
    again := store.UpdateFolder(ehrId, Some(ifMatch), ReturnMinimal, folder);
    recreated := store.CreateFolder(ehrId, ReturnMinimal, folder, newDir);
  }
}
