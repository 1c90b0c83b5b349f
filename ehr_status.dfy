/**
 * The openEHR /ehr/{ehr_id}/versioned_ehr_status endpoints. Each one first
 * checks that the EHR exists and then runs a chain of guards: the version
 * uid is taken apart with split("::") and Integer.parseInt, the ordinal is
 * range-checked, and the EHR and contribution services (passed in as
 * records of functions) are asked for the status version and its
 * contribution. Every endpoint is a function from its inputs to a Result.
 */
module VersionedEhrStatus {
  import opened Wrappers
  import opened Api
  import opened JavaText
  import opened Uuids
  import opened VersionUid

  /** The EHR_STATUS content a version holds. */
  datatype EhrStatus = EhrStatus(subjectId: string, isQueryable: bool, isModifiable: bool)

  /** ORIGINAL_VERSION<EHR_STATUS>; `contributionRef` is the text of its contribution reference. */
  datatype OriginalVersion = OriginalVersion(uid: string, contributionRef: string, data: EhrStatus)

  /** ContributionDto. */
  datatype Contribution = Contribution(uid: Uuid, versionUids: seq<string>)

  /** VERSIONED_EHR_STATUS. */
  datatype VersionedObject = VersionedObject(uid: Uuid, ownerId: Uuid, timeCreated: int)

  /** REVISION_HISTORY, as the list of its items' version uids. */
  datatype RevisionHistory = RevisionHistory(items: seq<string>)

  /** OriginalVersionResponseData: the version together with its contribution. */
  datatype VersionResponse = VersionResponse(version: OriginalVersion, contribution: Contribution)

  /**
   * The EhrService operations the controller calls. Timestamps are given
   * as opaque instants (`int`).
   */
  datatype EhrService = EhrService(
    hasEhr: Uuid -> bool,
    hasStatus: Uuid -> bool,
    statusObjectOf: Uuid -> Uuid,
    latestStatusUid: Uuid -> string,
    versionByTime: (Uuid, int) -> Int32,
    statusAtVersion: (Uuid, Uuid, int) -> Option<OriginalVersion>,
    versionedStatus: Uuid -> VersionedObject,
    revisionHistory: Uuid -> RevisionHistory)

  /** ContributionService.getContribution(ehrId, contributionId). */
  type ContributionLookup = (Uuid, Uuid) -> Option<Contribution>

  const NoEhrMessage: string := "No EHR with this ID can be found"
  const WrongFormatMessage: string := "VERSION UID parameter has wrong format: "
  const NegativeVersionMessage: string := "Version can't be negative."
  const NoStatusMessage: string := "No EHR_STATUS with given ID can be found."
  const NoVersionMessage: string := "Couldn't retrieve EhrStatus with given parameters"
  const NoContributionMessage: string := "Couldn't fetch contribution for existing EhrStatus"

  /** The error thrown when the EHR does not exist. */
  predicate IsEhrNotFound(e: ApiError) {
    e.ObjectNotFound? && e.kind == "ehr"
  }

  // ---------------------------------------------------------------------
  // Parsing a version uid.

  /** Why a version uid was refused: the exception the parsing threw. */
  datatype UidFault =
    | SegmentMissing(index: nat, length: nat)
    | MalformedUuid(text: string)
    | MalformedInt(text: string)

  datatype UidParse = Parsed(objectId: Uuid, version: Int32) | Malformed(fault: UidFault)

  /** The exception message of each fault, as the JDK words it. */
  function FaultDetail(f: UidFault): string {
    match f
    case SegmentMissing(i, n) => "Index " + IntToString(i) + " out of bounds for length " + IntToString(n)
    case MalformedUuid(s) => "Invalid UUID string: " + s
    case MalformedInt(s) => "For input string: \"" + s + "\""
  }

  /** The text of the ArrayIndexOutOfBoundsException an array access past its end throws. */
  function OutOfBoundsText(index: nat, length: nat): string {
    "ArrayIndexOutOfBoundsException: " + FaultDetail(SegmentMissing(index, length))
  }

  /**
   * UUID.fromString(uid.split("::")[0]) and then
   * Integer.parseInt(uid.split("::")[2]), with the first exception either
   * of them throws; segments after the third are never looked at.
   */
  function ParseStatusVersionUid(uid: string): UidParse {
    var ps := Split(uid, Sep);
    if |ps| < 1 then Malformed(SegmentMissing(0, |ps|))
    else
      match UuidFromString(ps[0])
      case None => Malformed(MalformedUuid(ps[0]))
      case Some(objectId) =>
        if |ps| < 3 then Malformed(SegmentMissing(2, |ps|))
        else
          match ParseInt(ps[2])
          case None => Malformed(MalformedInt(ps[2]))
          case Some(v) => Parsed(objectId, v)
  }

  /** A uid written as `objectId::node::ordinal` parses back to its object id and ordinal. */
  lemma ParseFormattedStatusUid(objectId: Uuid, node: string, ordinal: Int32)
    requires IsSegment(node)
    ensures ParseStatusVersionUid(FormatVersionUid(objectId, node, ordinal)) == Parsed(objectId, ordinal)
  {
    UuidIsSegment(objectId);
    IntToStringColonFree(ordinal);
    SplitFormatUid(objectId, node, IntToString(ordinal));
    ParseIntOfIntToString(ordinal);
  }

  /** A fourth segment after the ordinal changes nothing. */
  lemma ExtraSegmentsIgnored(objectId: Uuid, node: string, ordinal: Int32, extra: string)
    requires IsSegment(node) && ColonFree(extra) && |extra| > 0
    ensures ParseStatusVersionUid(FormatVersionUid(objectId, node, ordinal) + Sep + extra)
         == Parsed(objectId, ordinal)
  {
    UuidIsSegment(objectId);
    IntToStringColonFree(ordinal);
    ColonFreeIsSegment(IntToString(ordinal));
    SplitExtendedUid(objectId, node, IntToString(ordinal), extra);
    ParseIntOfIntToString(ordinal);
  }

  /** A bare object id has one segment only, so the third is missing. */
  lemma BareObjectIdRefused(objectId: Uuid)
    ensures ParseStatusVersionUid(objectId) == Malformed(SegmentMissing(2, 1))
  {
    UuidHasNoColon(objectId);
    ColonFreeHasNoSep(objectId);
  }

  /** An object id and a node with no ordinal after them have two segments, so the third is missing. */
  lemma TwoSegmentUidRefused(objectId: Uuid, node: string)
    requires IsSegment(node) && |node| > 0
    ensures ParseStatusVersionUid(objectId + Sep + node) == Malformed(SegmentMissing(2, 2))
  {
    UuidIsSegment(objectId);
    SegmentCharacterisation(node);
    assert SplitPieces(node, Sep) == [node];
    SplitAfterSegment(objectId, node, [node]);
  }

  /** A third segment that is no 32-bit integer is refused with parseInt's exception. */
  lemma NonIntegerOrdinalRefused(objectId: Uuid, node: string, tree: string)
    requires IsSegment(node) && ColonFree(tree) && |tree| > 0
    requires ParseInt(tree).None?
    ensures ParseStatusVersionUid(FormatUid(objectId, node, tree)) == Malformed(MalformedInt(tree))
  {
    UuidIsSegment(objectId);
    SplitFormatUid(objectId, node, tree);
  }

  /** A first segment that is no UUID is refused before the ordinal is looked at. */
  lemma NonUuidObjectIdRefused(objectId: string, node: string, tree: string)
    requires IsSegment(objectId) && IsSegment(node) && ColonFree(tree) && |tree| > 0
    requires !IsUuidText(objectId)
    ensures ParseStatusVersionUid(FormatUid(objectId, node, tree)) == Malformed(MalformedUuid(objectId))
  {
    SplitFormatUid(objectId, node, tree);
  }

  // ---------------------------------------------------------------------
  // The shared tail of the two /version endpoints.

  /**
   * The status at (objectId, version), then its contribution id
   * (UUID.fromString of the reference), then the contribution.
   */
  function VersionWithContribution(svc: EhrService, contributions: ContributionLookup,
                                   ehrId: Uuid, objectId: Uuid, version: int): (r: Result<VersionResponse>)
    ensures svc.statusAtVersion(ehrId, objectId, version).None? <==>
      r == Err(InvalidApiParameter(NoVersionMessage))
    ensures r.Ok? <==>
      && svc.statusAtVersion(ehrId, objectId, version).Some?
      && var v := svc.statusAtVersion(ehrId, objectId, version).value;
      && UuidFromString(v.contributionRef).Some?
      && contributions(ehrId, UuidFromString(v.contributionRef).value).Some?
    ensures r.Ok? ==>
      && Some(r.value.version) == svc.statusAtVersion(ehrId, objectId, version)
      && Some(r.value.contribution) == contributions(ehrId, UuidFromString(r.value.version.contributionRef).value)
  {
    match svc.statusAtVersion(ehrId, objectId, version)
    case None => Err(InvalidApiParameter(NoVersionMessage))
    case Some(v) =>
      match UuidFromString(v.contributionRef)
      case None => Err(IllegalArgument("Invalid UUID string: " + v.contributionRef))
      case Some(contributionId) =>
        match contributions(ehrId, contributionId)
        case None => Err(InternalServer(NoContributionMessage))
        case Some(c) => Ok(VersionResponse(v, c))
  }

  // ---------------------------------------------------------------------
  // The four endpoints.

  /** GET /versioned_ehr_status. */
  function RetrieveVersionedEhrStatus(svc: EhrService, ehrId: Uuid): (r: Result<VersionedObject>)
    ensures r.Ok? <==> svc.hasEhr(ehrId)
    ensures r.Ok? ==> r.value == svc.versionedStatus(ehrId)
    ensures r.Err? ==> r.error == ObjectNotFound("ehr", NoEhrMessage)
  {
    if !svc.hasEhr(ehrId) then Err(ObjectNotFound("ehr", NoEhrMessage))
    else Ok(svc.versionedStatus(ehrId))
  }

  /** GET /versioned_ehr_status/revision_history. */
  function RetrieveRevisionHistory(svc: EhrService, ehrId: Uuid): (r: Result<RevisionHistory>)
    ensures r.Ok? <==> svc.hasEhr(ehrId)
    ensures r.Ok? ==> r.value == svc.revisionHistory(ehrId)
    ensures r.Err? ==> r.error == ObjectNotFound("ehr", NoEhrMessage)
  {
    if !svc.hasEhr(ehrId) then Err(ObjectNotFound("ehr", NoEhrMessage))
    else Ok(svc.revisionHistory(ehrId))
  }

  /**
   * The ordinal of the latest status version:
   * Integer.parseInt(latestUid.split("::")[2]), whose exceptions are not
   * caught and so reach the client as server errors.
   */
  function LatestOrdinal(latestUid: string): Result<Int32> {
    var ps := Split(latestUid, Sep);
    if |ps| < 3 then Err(UnexpectedRuntime(OutOfBoundsText(2, |ps|)))
    else
      match ParseInt(ps[2])
      case None => Err(NumberFormat(ps[2]))
      case Some(n) => Ok(n)
  }

  /** The latest ordinal is read back from a formatted latest uid. */
  lemma LatestOrdinalOfFormattedUid(objectId: string, node: string, ordinal: Int32)
    requires IsSegment(objectId) && IsSegment(node)
    ensures LatestOrdinal(FormatVersionUid(objectId, node, ordinal)) == Ok(ordinal)
  {
    IntToStringColonFree(ordinal);
    SplitFormatUid(objectId, node, IntToString(ordinal));
    ParseIntOfIntToString(ordinal);
  }

  /** GET /versioned_ehr_status/version[?version_at_time=t]. */
  function RetrieveVersionByTime(svc: EhrService, contributions: ContributionLookup,
                                 ehrId: Uuid, versionAtTime: Option<int>): (r: Result<VersionResponse>)
    ensures !svc.hasEhr(ehrId) ==> r == Err(ObjectNotFound("ehr", NoEhrMessage))
    ensures svc.hasEhr(ehrId) && versionAtTime.Some? ==>
      r == VersionWithContribution(svc, contributions, ehrId, svc.statusObjectOf(ehrId),
                                   svc.versionByTime(ehrId, versionAtTime.value))
  {
    if !svc.hasEhr(ehrId) then Err(ObjectNotFound("ehr", NoEhrMessage))
    else
      var objectId := svc.statusObjectOf(ehrId);
      var version :=
        if versionAtTime.Some? then Ok(svc.versionByTime(ehrId, versionAtTime.value))
        else LatestOrdinal(svc.latestStatusUid(ehrId));
      match version
      case Err(e) => Err(e)
      case Ok(n) => VersionWithContribution(svc, contributions, ehrId, objectId, n)
  }

  /** GET /versioned_ehr_status/version/{version_uid}. */
  function RetrieveVersionByUid(svc: EhrService, contributions: ContributionLookup,
                                ehrId: Uuid, versionUid: string): (r: Result<VersionResponse>)
    ensures !svc.hasEhr(ehrId) ==> r == Err(ObjectNotFound("ehr", NoEhrMessage + "."))
    ensures svc.hasEhr(ehrId) && ParseStatusVersionUid(versionUid).Malformed? ==>
      r == Err(InvalidApiParameter(WrongFormatMessage + FaultDetail(ParseStatusVersionUid(versionUid).fault)))
    ensures r.Ok? ==> && ParseStatusVersionUid(versionUid).Parsed?
                      && ParseStatusVersionUid(versionUid).version >= 1
                      && svc.hasStatus(ParseStatusVersionUid(versionUid).objectId)
  {
    if !svc.hasEhr(ehrId) then Err(ObjectNotFound("ehr", NoEhrMessage + "."))
    else
      match ParseStatusVersionUid(versionUid)
      case Malformed(f) => Err(InvalidApiParameter(WrongFormatMessage + FaultDetail(f)))
      case Parsed(objectId, version) =>
        if version < 1 then Err(InvalidApiParameter(NegativeVersionMessage))
        else if !svc.hasStatus(objectId) then Err(ObjectNotFound("ehr_status", NoStatusMessage))
        else VersionWithContribution(svc, contributions, ehrId, objectId, version)
  }

  // ---------------------------------------------------------------------
  // Properties of the endpoints.

  /**
   * Every endpoint answers "EHR not found" exactly when the EHR does not
   * exist: the check comes before any other lookup, and no later step
   * raises the same error.
   */
  lemma EhrCheckedFirst(svc: EhrService, contributions: ContributionLookup, ehrId: Uuid,
                        versionAtTime: Option<int>, versionUid: string)
    ensures var r := RetrieveVersionedEhrStatus(svc, ehrId);
      r.Err? && IsEhrNotFound(r.error) <==> !svc.hasEhr(ehrId)
    ensures var r := RetrieveRevisionHistory(svc, ehrId);
      r.Err? && IsEhrNotFound(r.error) <==> !svc.hasEhr(ehrId)
    ensures var r := RetrieveVersionByTime(svc, contributions, ehrId, versionAtTime);
      r.Err? && IsEhrNotFound(r.error) <==> !svc.hasEhr(ehrId)
    ensures var r := RetrieveVersionByUid(svc, contributions, ehrId, versionUid);
      r.Err? && IsEhrNotFound(r.error) <==> !svc.hasEhr(ehrId)
    ensures !svc.hasEhr(ehrId) ==>
      RetrieveVersionByUid(svc, contributions, ehrId, versionUid) == Err(ObjectNotFound("ehr", NoEhrMessage + "."))
  {
  }

  /**
   * The /version/{version_uid} endpoint on a well-formed uid: an ordinal
   * below 1 is refused, then an unknown status object, and otherwise the
   * version named by the uid is fetched.
   */
  lemma RetrieveFormattedUid(svc: EhrService, contributions: ContributionLookup, ehrId: Uuid,
                             objectId: Uuid, node: string, ordinal: Int32)
    requires svc.hasEhr(ehrId) && IsSegment(node)
    ensures var r := RetrieveVersionByUid(svc, contributions, ehrId, FormatVersionUid(objectId, node, ordinal));
      if ordinal < 1 then r == Err(InvalidApiParameter(NegativeVersionMessage))
      else if !svc.hasStatus(objectId) then r == Err(ObjectNotFound("ehr_status", NoStatusMessage))
      else r == VersionWithContribution(svc, contributions, ehrId, objectId, ordinal)
  {
    ParseFormattedStatusUid(objectId, node, ordinal);
  }

  /** A bare object id, with no "::" at all, is refused as a malformed uid. */
  lemma BareObjectIdUidRefused(svc: EhrService, contributions: ContributionLookup, ehrId: Uuid, objectId: Uuid)
    requires svc.hasEhr(ehrId)
    ensures RetrieveVersionByUid(svc, contributions, ehrId, objectId)
         == Err(InvalidApiParameter(WrongFormatMessage + FaultDetail(SegmentMissing(2, 1))))
  {
    BareObjectIdRefused(objectId);
  }

  /**
   * The /version endpoint takes its ordinal from the timestamp lookup when
   * a time is given, and otherwise from the third segment of the latest
   * status uid; either way the version is looked up under the EHR's status
   * object.
   */
  lemma ByTimeOrdinalChoice(svc: EhrService, contributions: ContributionLookup, ehrId: Uuid,
                            versionAtTime: Option<int>, node: string, latest: Int32)
    requires svc.hasEhr(ehrId) && IsSegment(node)
    requires versionAtTime.None? ==>
      svc.latestStatusUid(ehrId) == FormatVersionUid(svc.statusObjectOf(ehrId), node, latest)
    ensures var objectId := svc.statusObjectOf(ehrId);
      var ordinal := if versionAtTime.Some? then svc.versionByTime(ehrId, versionAtTime.value) else latest;
      RetrieveVersionByTime(svc, contributions, ehrId, versionAtTime)
        == VersionWithContribution(svc, contributions, ehrId, objectId, ordinal)
  {
    if versionAtTime.None? {
      UuidIsSegment(svc.statusObjectOf(ehrId));
      LatestOrdinalOfFormattedUid(svc.statusObjectOf(ehrId), node, latest);
    }
  }

  /** A latest uid without a third segment makes the /version endpoint fail with an uncaught exception. */
  lemma ByTimeLatestUidWithoutOrdinal(svc: EhrService, contributions: ContributionLookup, ehrId: Uuid)
    requires svc.hasEhr(ehrId)
    requires ColonFree(svc.latestStatusUid(ehrId))
    ensures var r := RetrieveVersionByTime(svc, contributions, ehrId, None);
      r.Err? && r.error.UnexpectedRuntime?
  {
    var latest := svc.latestStatusUid(ehrId);
    ColonFreeHasNoSep(latest);
    assert Split(latest, Sep) == [latest];
    assert LatestOrdinal(latest).Err?;
  }
}
