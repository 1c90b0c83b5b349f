/**
 * The openEHR /query endpoints: ad-hoc and stored AQL queries, the
 * textual LIMIT / OFFSET pagination appended to the query, the choice
 * of executor overload (with or without parameters), and the response
 * status. The query service (stored-query registry and AQL executor)
 * is passed in as functions.
 */
module Query {
  import opened Wrappers
  import opened JavaText

  /** A Java String reference, which may be null. */
  type JavaString = Option<string>

  /** How string concatenation renders a String reference: null becomes "null". */
  function Text(s: JavaString): string {
    match s
    case Some(t) => t
    case None => "null"
  }

  /** A value Gson or Spring puts in a parameter map. */
  datatype JsonValue =
    | JString(s: string)
    | JNumber(n: int)
    | JBool(b: bool)
    | JNull
    | JArray(items: seq<JsonValue>)
    | JObject(fields: map<string, JsonValue>)

  type Params = map<string, JsonValue>

  /** What the executor is called with: `parameters == None` is the overload without parameters. */
  datatype ExecutorCall = ExecutorCall(query: JavaString, parameters: Option<Params>)

  /** QueryService.query's result. */
  datatype QueryResult = QueryResult(columns: seq<string>, rows: seq<seq<JsonValue>>)

  /** A stored query as the registry returns it. */
  datatype QueryDefinition = QueryDefinition(qualifiedName: string, version: string, queryText: JavaString)

  /**
   * The JSON body of a POST, as Gson decodes it: the "q" and
   * "query_parameters" entries, and "fetch" / "offset" when the keys are
   * present (as the integers they denote).
   */
  datatype QueryRequestBody = QueryRequestBody(
    q: JavaString, queryParameters: Option<Params>, fetch: Option<Int32>, offset: Option<Int32>)

  datatype QueryResponseData = QueryResponseData(name: Option<string>, result: QueryResult)

  datatype QueryResponse =
    | Success(body: QueryResponseData)
    | NoContent
    | BadRequest(error: string, description: string)
  {
    function Status(): int {
      match this
      case Success(_) => 200
      case NoContent => 204
      case BadRequest(_, _) => 400
    }
  }

  const Latest: string := "LATEST"

  // ---------------------------------------------------------------------
  // Pagination as text.

  /** withFetch: the query followed by " LIMIT " and the number. */
  function WithFetch(query: JavaString, value: Int32): string {
    Text(query) + " LIMIT " + IntToString(value)
  }

  /** withOffset: the query followed by " OFFSET " and the number. */
  function WithOffset(query: JavaString, value: Int32): string {
    Text(query) + " OFFSET " + IntToString(value)
  }

  /**
   * A clause appended by withFetch / withOffset keeps the query as a prefix,
   * and what follows the keyword reads back, with Integer.parseInt, as the
   * number that was appended.
   */
  lemma AppendedClauseReadsBack(query: JavaString, value: Int32)
    ensures var r := WithFetch(query, value); var n := |Text(query)|;
      && |r| > n + 7 && r[..n] == Text(query) && r[n..n + 7] == " LIMIT "
      && ParseInt(r[n + 7..]) == Some(value)
    ensures var r := WithOffset(query, value); var n := |Text(query)|;
      && |r| > n + 8 && r[..n] == Text(query) && r[n..n + 8] == " OFFSET "
      && ParseInt(r[n + 8..]) == Some(value)
  {
    NumberAfterKeyword(Text(query), " LIMIT ", value);
    NumberAfterKeyword(Text(query), " OFFSET ", value);
  }

  /** `t + keyword + n` splits back into its three parts, and the number parses. */
  lemma NumberAfterKeyword(t: string, keyword: string, value: Int32)
    ensures var r := t + keyword + IntToString(value);
      && |r| > |t| + |keyword| && r[..|t|] == t && r[|t|..|t| + |keyword|] == keyword
      && ParseInt(r[|t| + |keyword|..]) == Some(value)
  {
    var d := IntToString(value);
    var r := t + keyword + d;
    assert r[|t| + |keyword|..] == d;
    assert r[|t|..|t| + |keyword|] == keyword;
    ParseIntOfIntToString(value);
  }

  /** The query after the fetch clause (if any) and then the offset clause (if any) are appended. */
  function Paginated(query: JavaString, fetch: Option<Int32>, offset: Option<Int32>): JavaString {
    var limited := if fetch.Some? then Some(WithFetch(query, fetch.value)) else query;
    if offset.Some? then Some(WithOffset(limited, offset.value)) else limited
  }

  function Clause(keyword: string, value: Option<Int32>): string {
    match value
    case Some(n) => keyword + IntToString(n)
    case None => ""
  }

  /**
   * Pagination leaves the query alone when neither number is given, and
   * otherwise appends " LIMIT f" before " OFFSET o".
   */
  lemma PaginatedClauses(query: JavaString, fetch: Option<Int32>, offset: Option<Int32>)
    ensures fetch.None? && offset.None? ==> Paginated(query, fetch, offset) == query
    ensures fetch.Some? || offset.Some? ==>
      Paginated(query, fetch, offset) == Some(Text(query) + Clause(" LIMIT ", fetch) + Clause(" OFFSET ", offset))
  {
    match (fetch, offset)
    case (Some(f), Some(o)) => PaginatedBoth(query, f, o);
    case (Some(f), None) => PaginatedFetchOnly(query, f);
    case (None, Some(o)) => PaginatedOffsetOnly(query, o);
    case (None, None) =>
  }

  lemma PaginatedFetchOnly(query: JavaString, fetch: Int32)
    ensures Paginated(query, Some(fetch), None)
      == Some(Text(query) + Clause(" LIMIT ", Some(fetch)) + Clause(" OFFSET ", None))
  {
    var t, lc := Text(query), " LIMIT " + IntToString(fetch);
    assert WithFetch(query, fetch) == t + lc;
    assert t + lc + [] == t + lc;
  }

  lemma PaginatedOffsetOnly(query: JavaString, offset: Int32)
    ensures Paginated(query, None, Some(offset))
      == Some(Text(query) + Clause(" LIMIT ", None) + Clause(" OFFSET ", Some(offset)))
  {
    var t, oc := Text(query), " OFFSET " + IntToString(offset);
    assert WithOffset(query, offset) == t + oc;
    assert t + [] == t;
  }

  /** With both numbers, the limit clause comes first and the offset clause after it. */
  lemma PaginatedBoth(query: JavaString, fetch: Int32, offset: Int32)
    ensures Paginated(query, Some(fetch), Some(offset))
      == Some(Text(query) + Clause(" LIMIT ", Some(fetch)) + Clause(" OFFSET ", Some(offset)))
  {
    var t, lc, oc := Text(query), " LIMIT " + IntToString(fetch), " OFFSET " + IntToString(offset);
    assert WithFetch(query, fetch) == t + lc;
    assert WithOffset(Some(t + lc), offset) == t + lc + oc;
  }

  /**
   * Java's string concatenation writes a null query as "null", so a fetch
   * size turns a missing query text into "null LIMIT n". The GET ad-hoc
   * endpoint cannot receive a null query (Spring requires its `q`); a
   * stored query whose definition has no text reaches this case.
   */
  lemma NullQueryWithFetch(fetch: Int32)
    ensures Paginated(None, Some(fetch), None) == Some("null LIMIT " + IntToString(fetch))
  {
    assert "null" + " LIMIT " == "null LIMIT ";
  }

  // ---------------------------------------------------------------------
  // Dispatch.

  /** Parameters reach the executor only when the map is non-null and non-empty. */
  function ExecutorCallFor(query: JavaString, parameters: Option<Params>): (c: ExecutorCall)
    ensures c.query == query
    ensures c.parameters.Some? <==> parameters.Some? && |parameters.value| > 0
    ensures c.parameters.Some? ==> c.parameters == parameters
  {
    if parameters.Some? && |parameters.value| > 0 then ExecutorCall(query, parameters)
    else ExecutorCall(query, None)
  }

  function MissingQueryResponse(): QueryResponse {
    BadRequest("Invalid query", "no aql query provided")
  }

  function BadStoredQueryResponse(qualifiedName: string, version: Option<string>): QueryResponse {
    BadRequest("Invalid query", "could not retrieve query identified by:" + qualifiedName + "/" + version.GetOr(Latest))
  }

  /** The name a stored-query response is tagged with. */
  function StoredName(definition: QueryDefinition): string {
    definition.qualifiedName + "/" + definition.version
  }

  /** invoke: copies the parameters into a fresh map before handing them to the executor. */
  method Invoke(query: JavaString, queryParameter: Option<Params>, execute: ExecutorCall -> QueryResult)
    returns (data: QueryResponseData)
    ensures data == QueryResponseData(None, execute(ExecutorCallFor(query, queryParameter)))
  {
    if queryParameter.Some? && |queryParameter.value| > 0 {
      var parameters: Params := map[];
      parameters := parameters + queryParameter.value;
      assert parameters == queryParameter.value;
      data := QueryResponseData(None, execute(ExecutorCall(query, Some(parameters))));
    } else {
      data := QueryResponseData(None, execute(ExecutorCall(query, None)));
    }
  }

  /** withOffsetLimit: a LIMIT clause if the body has "fetch", then an OFFSET clause if it has "offset". */
  method WithOffsetLimit(query: string, mapped: QueryRequestBody) returns (r: string)
    ensures Some(r) == Paginated(Some(query), mapped.fetch, mapped.offset)
  {
    r := query;
    if mapped.fetch.Some? {
      r := WithFetch(Some(r), mapped.fetch.value);
    }
    if mapped.offset.Some? {
      r := WithOffset(Some(r), mapped.offset.value);
    }
  }

  /**
   * GET /query/aql: pagination first, then 400 if there is still no query
   * text, else 200 with at least one row and 204 with none.
   */
  method GetAdhocQuery(query: JavaString, offset: Option<Int32>, fetch: Option<Int32>,
                       queryParameters: Option<Params>, execute: ExecutorCall -> QueryResult)
    returns (r: QueryResponse)
    ensures var q := Paginated(query, fetch, offset);
      if q.None? then r == MissingQueryResponse()
      else
        var result := execute(ExecutorCallFor(q, queryParameters));
        r == if |result.rows| > 0 then Success(QueryResponseData(None, result)) else NoContent
  {
    var q := query;
    if fetch.Some? {
      q := Some(WithFetch(q, fetch.value));
    }
    if offset.Some? {
      q := Some(WithOffset(q, offset.value));
    }
    if q.Some? {
      var result: QueryResult;
      if queryParameters.Some? && |queryParameters.value| > 0 {
        result := execute(ExecutorCall(q, queryParameters));
      } else {
        result := execute(ExecutorCall(q, None));
      }
      if |result.rows| > 0 {
        r := Success(QueryResponseData(None, result));
      } else {
        r := NoContent;
      }
    } else {
      r := MissingQueryResponse();
    }
  }

  /** POST /query/aql: 400 without "q"; otherwise 200, even for zero rows. */
  method PostAdhocQuery(mapped: QueryRequestBody, execute: ExecutorCall -> QueryResult) returns (r: QueryResponse)
    ensures mapped.q.None? ==> r == MissingQueryResponse()
    ensures mapped.q.Some? ==>
      var aql := Paginated(mapped.q, mapped.fetch, mapped.offset);
      r == Success(QueryResponseData(None, execute(ExecutorCallFor(aql, mapped.queryParameters))))
  {
    var aql := mapped.q;
    if aql.None? {
      return MissingQueryResponse();
    }
    var paged := WithOffsetLimit(aql.value, mapped);
    var data: QueryResponseData;
    if mapped.queryParameters.Some? && |mapped.queryParameters.value| > 0 {
      data := QueryResponseData(None, execute(ExecutorCall(Some(paged), mapped.queryParameters)));
    } else {
      data := QueryResponseData(None, execute(ExecutorCall(Some(paged), None)));
    }
    r := Success(data);
  }

  /**
   * GET /query/{name}[/{version}]: the registry is asked for the version
   * given or LATEST; its text is paginated and run; the response is 200,
   * tagged with the definition's name/version.
   */
  method GetStoredQuery(qualifiedName: string, version: Option<string>, offset: Option<Int32>, fetch: Option<Int32>,
                        queryParameter: Option<Params>, retrieve: (string, string) -> QueryDefinition,
                        execute: ExecutorCall -> QueryResult)
    returns (r: QueryResponse)
    ensures var definition := retrieve(qualifiedName, version.GetOr(Latest));
      var q := Paginated(definition.queryText, fetch, offset);
      r == Success(QueryResponseData(Some(StoredName(definition)), execute(ExecutorCallFor(q, queryParameter))))
  {
    var definition := retrieve(qualifiedName, if version.Some? then version.value else Latest);
    var query := definition.queryText;
    if fetch.Some? {
      query := Some(WithFetch(query, fetch.value));
    }
    if offset.Some? {
      query := Some(WithOffset(query, offset.value));
    }
    var data := Invoke(query, queryParameter, execute);
    r := Success(data.(name := Some(StoredName(definition))));
  }

  /**
   * POST /query/{name}[/{version}]: 400 naming name/version-or-LATEST when
   * the registry has no text; pagination and parameters come from the
   * body only when the body is non-null and non-empty.
   */
  method PostStoredQuery(qualifiedName: string, version: Option<string>, parameterBody: JavaString,
                         decode: string -> QueryRequestBody, retrieve: (string, string) -> QueryDefinition,
                         execute: ExecutorCall -> QueryResult)
    returns (r: QueryResponse)
    ensures var definition := retrieve(qualifiedName, version.GetOr(Latest));
      if definition.queryText.None? then r == BadStoredQueryResponse(qualifiedName, version)
      else if parameterBody.None? || |parameterBody.value| == 0 then
        r == Success(QueryResponseData(Some(StoredName(definition)), execute(ExecutorCall(definition.queryText, None))))
      else
        var mapped := decode(parameterBody.value);
        var q := Paginated(definition.queryText, mapped.fetch, mapped.offset);
        r == Success(QueryResponseData(Some(StoredName(definition)), execute(ExecutorCallFor(q, mapped.queryParameters))))
  {
    var definition := retrieve(qualifiedName, if version.Some? then version.value else Latest);
    var query := definition.queryText;
    if query.None? {
      return BadStoredQueryResponse(qualifiedName, version);
    }
    var text := query.value;
    var queryParameter: Option<Params> := None;
    if parameterBody.Some? && |parameterBody.value| > 0 {
      var mapped := decode(parameterBody.value);
      queryParameter := mapped.queryParameters;
      text := WithOffsetLimit(text, mapped);
    }
    var data := Invoke(Some(text), queryParameter, execute);
    r := Success(data.(name := Some(StoredName(definition))));
  }
}
