/**
 * The EhrScape /rest/ecis/v1/composition endpoints. A composition id is
 * either a bare UUID or a version uid `uuid::node::version`; the
 * controller takes it apart with contains / indexOf / lastIndexOf and
 * substring. Create and update refuse the flat formats without a template
 * id; update and delete address the latest version and read the EHR id
 * from version 1. The composition service is passed in as a record of
 * functions, and every endpoint is a function from its inputs to a Result.
 */
module EhrScapeComposition {
  import opened Wrappers
  import opened Api
  import opened JavaText
  import opened Uuids
  import opened VersionUid

  datatype CompositionFormat = XML | ECISFLAT | FLAT | RAW

  /** The enum constant's name, as String.format("%s", format) writes it. */
  function FormatName(f: CompositionFormat): string {
    match f
    case XML => "XML"
    case ECISFLAT => "ECISFLAT"
    case FLAT => "FLAT"
    case RAW => "RAW"
  }

  /** The composition object the service builds from the request body. */
  datatype Composition = Composition(content: string, format: CompositionFormat, templateId: Option<string>)

  /**
   * CompositionDto: its uuid, EHR id and template id, and the text of the
   * uid of the composition it carries.
   */
  datatype CompositionDto = CompositionDto(uuid: Uuid, ehrId: Uuid, templateId: string, versionUid: string)

  /** ObjectVersionId(objectId, node, tree). */
  datatype ObjectVersionId = ObjectVersionId(objectId: string, node: string, tree: string) {
    function ToString(): string { FormatUid(objectId, node, tree) }
  }

  datatype Action = CREATE | RETRIEVE | UPDATE | DELETE

  datatype Meta = Meta(href: string)

  /** CompositionWriteRestResponseData. */
  datatype WriteResponse = WriteResponse(action: Action, compositionUid: string, meta: Meta)

  /** ActionRestResponseData. */
  datatype ActionResponse = ActionResponse(action: Action, meta: Meta)

  /** CompositionResponseData. */
  datatype CompositionResponse = CompositionResponse(
    composition: string, action: Action, format: CompositionFormat,
    templateId: string, compositionUid: string, ehrId: Uuid, meta: Meta)

  /** 200 with the composition, or 404. */
  datatype Retrieved = Found(response: CompositionResponse) | NotFound

  /** What compositionService.retrieve is asked for: a uuid and a version, None meaning the latest. */
  datatype RetrieveRequest = RetrieveRequest(uuid: Uuid, version: Option<int>)

  /** What the service is asked to delete. */
  datatype DeleteRequest = DeleteRequest(ehrId: Uuid, versionId: ObjectVersionId)

  /** The CompositionService operations the controller calls. */
  datatype CompositionService = CompositionService(
    nodeName: string,
    build: (string, CompositionFormat, Option<string>) -> Composition,
    create: (Uuid, Composition) -> Option<CompositionDto>,
    retrieve: (Uuid, Option<int>) -> Option<CompositionDto>,
    serialize: (CompositionDto, CompositionFormat) -> string,
    lastVersionNumber: Uuid -> Int32,
    update: (Uuid, ObjectVersionId, Composition) -> Option<CompositionDto>)

  const CompositionPath: string := "/rest/ecis/v1/composition/"
  const CreateFailedMessage: string := "Failed to create composition"
  const InvalidIdMessage: string := "Invalid composition ID."

  // ---------------------------------------------------------------------
  // Taking a composition id apart.

  /** UUID.fromString(text), whose failure is an IllegalArgumentException. */
  function ToUuid(text: string): (r: Result<Uuid>)
    ensures r.Ok? <==> IsUuidText(text)
    ensures IsCanonicalUuid(text) ==> r == Ok(text)
  {
    match UuidFromString(text)
    case Some(u) => Ok(u)
    case None => Err(IllegalArgument("Invalid UUID string: " + text))
  }

  /** getCompositionUid: the whole id when there is no "::", else the part before the first "::". */
  function CompositionUid(full: string): Result<Uuid> {
    if !Contains(full, Sep) then ToUuid(full)
    else ToUuid(full[..IndexOf(full, Sep)])
  }

  /** getCompositionVersion: 1 when there is no "::", else the integer after the last "::". */
  function CompositionVersion(full: string): Result<int> {
    if !Contains(full, Sep) then Ok(1)
    else
      var tail := full[LastIndexOf(full, Sep) + 2..];
      match ParseInt(tail)
      case Some(v) => Ok(v)
      case None => Err(NumberFormat(tail))
  }

  /**
   * Any version uid whose object id is a UUID parses back to that UUID and
   * its ordinal, whatever the node name holds: the uuid is cut at the first
   * "::" and the ordinal after the last one.
   */
  lemma VersionUidRoundTrip(uuid: Uuid, node: string, ordinal: Int32)
    ensures CompositionUid(FormatVersionUid(uuid, node, ordinal)) == Ok(uuid)
    ensures CompositionVersion(FormatVersionUid(uuid, node, ordinal)) == Ok(ordinal)
  {
    var full := FormatVersionUid(uuid, node, ordinal);
    var d := IntToString(ordinal);
    UuidIsSegment(uuid);
    IndexOfAfterSegment(uuid, node + Sep + d);
    assert full == uuid + Sep + (node + Sep + d);
    assert full[..|uuid|] == uuid;
    IntToStringColonFree(ordinal);
    LastIndexOfBeforeColonFree(uuid + Sep + node, d);
    assert full == (uuid + Sep + node) + Sep + d;
    assert full[|uuid + Sep + node| + 2..] == d;
    ParseIntOfIntToString(ordinal);
  }

  /** A bare UUID is its own composition uid, at version 1. */
  lemma BareUuidId(uuid: Uuid)
    ensures CompositionUid(uuid) == Ok(uuid)
    ensures CompositionVersion(uuid) == Ok(1)
  {
    UuidHasNoColon(uuid);
    ColonFreeHasNoSep(uuid);
  }

  // ---------------------------------------------------------------------
  // Responses.

  /** buildMeta: the href of a composition uid under the base URL. */
  function BuildMeta(baseUrl: string, compositionUid: string): (m: Meta)
    ensures |m.href| == |baseUrl| + |CompositionPath| + |compositionUid|
    ensures m.href[..|baseUrl|] == baseUrl
    ensures m.href[|baseUrl|..|baseUrl| + |CompositionPath|] == CompositionPath
    ensures m.href[|baseUrl| + |CompositionPath|..] == compositionUid
  {
    Meta(baseUrl + CompositionPath + compositionUid)
  }

  /** The flat formats need a template id; StringUtils.isEmpty is true for null and "". */
  function TemplateCheck(format: CompositionFormat, templateId: Option<string>): (r: Option<ApiError>)
    ensures r.Some? <==> (format == FLAT || format == ECISFLAT) && (templateId.None? || templateId.value == "")
    ensures r.Some? ==> r.value == InvalidApiParameter("Template Id needs to specified for format " + FormatName(format))
  {
    if (format == FLAT || format == ECISFLAT) && (templateId.None? || templateId.value == "") then
      Some(InvalidApiParameter("Template Id needs to specified for format " + FormatName(format)))
    else None
  }

  /** getLatestVersionId: the composition's uuid, this node, and the last version number. */
  function LatestVersionId(svc: CompositionService, compositionId: Uuid): ObjectVersionId {
    ObjectVersionId(compositionId, svc.nodeName, IntToString(svc.lastVersionNumber(compositionId)))
  }

  /** getEhrId: the EHR of version 1, which every composition has. */
  function EhrIdOf(svc: CompositionService, compositionId: Uuid): (r: Result<Uuid>)
    ensures r.Ok? <==> svc.retrieve(compositionId, Some(1)).Some?
    ensures r.Ok? ==> r.value == svc.retrieve(compositionId, Some(1)).value.ehrId
    ensures r.Err? ==> r.error == InvalidApiParameter(InvalidIdMessage)
  {
    match svc.retrieve(compositionId, Some(1))
    case Some(dto) => Ok(dto.ehrId)
    case None => Err(InvalidApiParameter(InvalidIdMessage))
  }

  // ---------------------------------------------------------------------
  // The endpoints.

  /**
   * The retrieve call of getComposition: with "::" the version is read
   * first and then the uuid; a bare id asks for the latest version (null).
   */
  function RequestFor(compositionId: string): Result<RetrieveRequest> {
    if Contains(compositionId, Sep) then
      match CompositionVersion(compositionId)
      case Err(e) => Err(e)
      case Ok(v) =>
        match CompositionUid(compositionId)
        case Err(e) => Err(e)
        case Ok(u) => Ok(RetrieveRequest(u, Some(v)))
    else
      match CompositionUid(compositionId)
      case Err(e) => Err(e)
      case Ok(u) => Ok(RetrieveRequest(u, None))
  }

  /** POST /composition. */
  function CreateComposition(svc: CompositionService, baseUrl: string, format: CompositionFormat,
                             templateId: Option<string>, ehrId: Uuid, content: string): (r: Result<WriteResponse>)
    ensures TemplateCheck(format, templateId).Some? ==> r == Err(TemplateCheck(format, templateId).value)
    ensures r.Ok? ==> r.value.action == CREATE && r.value.meta == BuildMeta(baseUrl, r.value.compositionUid)
  {
    match TemplateCheck(format, templateId)
    case Some(e) => Err(e)
    case None =>
      match svc.create(ehrId, svc.build(content, format, templateId))
      case None => Err(InternalServer(CreateFailedMessage))
      case Some(dto) =>
        var uid := FormatVersionUid(dto.uuid, svc.nodeName, 1);
        Ok(WriteResponse(CREATE, uid, BuildMeta(baseUrl, uid)))
  }

  /** GET /composition/{id}: 200 with the serialized composition, or 404. */
  function GetComposition(svc: CompositionService, baseUrl: string, compositionId: string,
                          format: CompositionFormat): (r: Result<Retrieved>)
    ensures RequestFor(compositionId).Err? ==> r == Err(RequestFor(compositionId).error)
    ensures r.Ok? && r.value.Found? ==>
      var response := r.value.response;
      && response.action == RETRIEVE && response.format == format
      && response.meta == BuildMeta(baseUrl, response.compositionUid)
  {
    match RequestFor(compositionId)
    case Err(e) => Err(e)
    case Ok(RetrieveRequest(uuid, version)) =>
      match svc.retrieve(uuid, version)
      case None => Ok(NotFound)
      case Some(dto) =>
        Ok(Found(CompositionResponse(svc.serialize(dto, format), RETRIEVE, format, dto.templateId,
                                     dto.uuid, dto.ehrId, BuildMeta(baseUrl, dto.uuid))))
  }

  /** PUT /composition/{id}. */
  function UpdateComposition(svc: CompositionService, baseUrl: string, compositionId: Uuid,
                             format: CompositionFormat, templateId: Option<string>, content: string): (r: Result<ActionResponse>)
    ensures TemplateCheck(format, templateId).Some? ==> r == Err(TemplateCheck(format, templateId).value)
    ensures r.Ok? ==> r.value.action == UPDATE && svc.retrieve(compositionId, Some(1)).Some?
  {
    match TemplateCheck(format, templateId)
    case Some(e) => Err(e)
    case None =>
      var composition := svc.build(content, format, templateId);
      var latest := LatestVersionId(svc, compositionId);
      match EhrIdOf(svc, compositionId)
      case Err(e) => Err(e)
      case Ok(ehrId) =>
        match svc.update(ehrId, latest, composition)
        case None => Err(InternalServer(CreateFailedMessage))
        case Some(dto) => Ok(ActionResponse(UPDATE, BuildMeta(baseUrl, dto.versionUid)))
  }

  /** DELETE /composition/{id}: the service is asked to delete the latest version. */
  function DeleteComposition(svc: CompositionService, baseUrl: string, compositionId: Uuid)
    : (r: Result<(DeleteRequest, ActionResponse)>)
    ensures r.Ok? <==> svc.retrieve(compositionId, Some(1)).Some?
    ensures r.Ok? ==> && r.value.0.versionId == LatestVersionId(svc, compositionId)
                      && r.value.1 == ActionResponse(DELETE, Meta(baseUrl + CompositionPath))
  {
    var latest := LatestVersionId(svc, compositionId);
    match EhrIdOf(svc, compositionId)
    case Err(e) => Err(e)
    case Ok(ehrId) => Ok((DeleteRequest(ehrId, latest), ActionResponse(DELETE, BuildMeta(baseUrl, ""))))
  }

  // ---------------------------------------------------------------------
  // Properties of the endpoints.

  /**
   * The uid returned by create is `uuid::node::1`, its meta href is that
   * uid under the composition path, and reading it back with
   * getCompositionUid / getCompositionVersion gives the new uuid and
   * version 1.
   */
  lemma CreatedUidRoundTrip(svc: CompositionService, baseUrl: string, format: CompositionFormat,
                            templateId: Option<string>, ehrId: Uuid, content: string)
    requires CreateComposition(svc, baseUrl, format, templateId, ehrId, content).Ok?
    ensures var r := CreateComposition(svc, baseUrl, format, templateId, ehrId, content).value;
      var dto := svc.create(ehrId, svc.build(content, format, templateId)).value;
      && r.compositionUid == FormatUid(dto.uuid, svc.nodeName, "1")
      && r.meta.href == baseUrl + CompositionPath + r.compositionUid
      && CompositionUid(r.compositionUid) == Ok(dto.uuid)
      && CompositionVersion(r.compositionUid) == Ok(1)
  {
    var dto := svc.create(ehrId, svc.build(content, format, templateId)).value;
    assert IntToString(1) == "1";
    VersionUidRoundTrip(dto.uuid, svc.nodeName, 1);
  }

  /**
   * A flat format without a template id fails on create and on update
   * before the service is asked anything, so the answer is the same for
   * every service.
   */
  lemma FlatFormatNeedsTemplate(svc: CompositionService, baseUrl: string, format: CompositionFormat,
                                templateId: Option<string>, ehrId: Uuid, compositionId: Uuid, content: string)
    requires format == FLAT || format == ECISFLAT
    requires templateId.None? || templateId.value == ""
    ensures var e := InvalidApiParameter("Template Id needs to specified for format " + FormatName(format));
      && CreateComposition(svc, baseUrl, format, templateId, ehrId, content) == Err(e)
      && UpdateComposition(svc, baseUrl, compositionId, format, templateId, content) == Err(e)
  {
  }

  /** The other formats, and a non-empty template id, pass the check and reach the service. */
  lemma TemplatePresentReachesService(svc: CompositionService, baseUrl: string, format: CompositionFormat,
                                      templateId: Option<string>, ehrId: Uuid, content: string)
    requires !(format == FLAT || format == ECISFLAT) || (templateId.Some? && templateId.value != "")
    ensures var created := svc.create(ehrId, svc.build(content, format, templateId));
      CreateComposition(svc, baseUrl, format, templateId, ehrId, content).Ok? <==> created.Some?
  {
  }

  /** A bare UUID asks the service for the latest version (null). */
  lemma RequestForBareUuid(uuid: Uuid)
    ensures RequestFor(uuid) == Ok(RetrieveRequest(uuid, None))
  {
    BareUuidId(uuid);
  }

  /** A version uid asks the service for the uuid and the version it names. */
  lemma RequestForVersionUid(uuid: Uuid, node: string, ordinal: Int32)
    ensures RequestFor(FormatVersionUid(uuid, node, ordinal)) == Ok(RetrieveRequest(uuid, Some(ordinal)))
  {
    var full := FormatVersionUid(uuid, node, ordinal);
    UuidIsSegment(uuid);
    IndexOfAfterSegment(uuid, node + Sep + IntToString(ordinal));
    assert full == uuid + Sep + (node + Sep + IntToString(ordinal));
    assert Contains(full, Sep);
    VersionUidRoundTrip(uuid, node, ordinal);
  }

  /**
   * Once the id is read, an absent composition is a 404 and a present one
   * is answered with its uuid, its EHR and template id, and an href to it.
   */
  lemma GetCompositionOutcome(svc: CompositionService, baseUrl: string, compositionId: string,
                              format: CompositionFormat)
    ensures var r := GetComposition(svc, baseUrl, compositionId, format);
      match RequestFor(compositionId)
      case Err(e) => r == Err(e)
      case Ok(request) =>
        var found := svc.retrieve(request.uuid, request.version);
        && (found.None? <==> r == Ok(NotFound))
        && (found.Some? ==>
              && r.Ok? && r.value.Found?
              && r.value.response.compositionUid == found.value.uuid
              && r.value.response.ehrId == found.value.ehrId
              && r.value.response.templateId == found.value.templateId
              && r.value.response.meta.href == baseUrl + CompositionPath + found.value.uuid)
  {
  }

  /** In an id with "::", a bad version is reported before a bad uuid. */
  lemma VersionCheckedBeforeUuid(svc: CompositionService, baseUrl: string, compositionId: string,
                                 format: CompositionFormat)
    requires Contains(compositionId, Sep)
    requires CompositionVersion(compositionId).Err?
    ensures GetComposition(svc, baseUrl, compositionId, format) == Err(CompositionVersion(compositionId).error)
  {
  }

  /**
   * Update sends the service the EHR of version 1 and the latest version
   * id `uuid::node::last`, and that id's text reads back as the same uuid
   * and the last version number; without a version 1 it fails with
   * "Invalid composition ID.".
   */
  lemma UpdateTargetsLatestVersion(svc: CompositionService, baseUrl: string, compositionId: Uuid,
                                   format: CompositionFormat, templateId: Option<string>, content: string)
    requires TemplateCheck(format, templateId).None?
    ensures var r := UpdateComposition(svc, baseUrl, compositionId, format, templateId, content);
      svc.retrieve(compositionId, Some(1)).None? ==> r == Err(InvalidApiParameter(InvalidIdMessage))
    ensures var r := UpdateComposition(svc, baseUrl, compositionId, format, templateId, content);
      svc.retrieve(compositionId, Some(1)).Some? ==>
        var ehrId := svc.retrieve(compositionId, Some(1)).value.ehrId;
        var latest := ObjectVersionId(compositionId, svc.nodeName, IntToString(svc.lastVersionNumber(compositionId)));
        var updated := svc.update(ehrId, latest, svc.build(content, format, templateId));
        && (updated.None? ==> r == Err(InternalServer(CreateFailedMessage)))
        && (updated.Some? ==> r == Ok(ActionResponse(UPDATE, BuildMeta(baseUrl, updated.value.versionUid))))
    ensures var latest := LatestVersionId(svc, compositionId).ToString();
      && CompositionUid(latest) == Ok(compositionId)
      && CompositionVersion(latest) == Ok(svc.lastVersionNumber(compositionId))
  {
    VersionUidRoundTrip(compositionId, svc.nodeName, svc.lastVersionNumber(compositionId));
  }

  /**
   * Delete asks the service to delete the latest version under the EHR of
   * version 1 and answers with the bare composition path; without a
   * version 1 it fails with "Invalid composition ID.".
   */
  lemma DeleteTargetsLatestVersion(svc: CompositionService, baseUrl: string, compositionId: Uuid)
    ensures var r := DeleteComposition(svc, baseUrl, compositionId);
      && (r.Err? <==> svc.retrieve(compositionId, Some(1)).None?)
      && (r.Err? ==> r.error == InvalidApiParameter(InvalidIdMessage))
      && (r.Ok? ==>
            && r.value.0 == DeleteRequest(svc.retrieve(compositionId, Some(1)).value.ehrId,
                                          ObjectVersionId(compositionId, svc.nodeName, IntToString(svc.lastVersionNumber(compositionId))))
            && r.value.1.meta.href == baseUrl + CompositionPath)
  {
  }
}
