/**
 * internal/db/query.go: the list request of one user's transactions, read from an API
 * Gateway proxy request, validated, and planned as a DynamoDB query.
 */
module DbQuery {
  import opened Wrappers
  import opened Dynamo
  import opened DbUtil
  import opened DbTransaction

  /** One page of a listing, and the cursor of the next page ("" when there is none). */
  datatype ListResponse = ListResponse(items: seq<Transaction>, cursor: string)

  /** The query: a partition, a prefix of the sort key, two optional equality filters, a cursor and a limit. */
  datatype UserListRequest = UserListRequest(
    userId: string,
    timestampPrefix: string,
    origin: string,
    operationType: string,
    after: string,
    limit: Option<Int32>)

  /** The parts of an events.APIGatewayProxyRequest the request is read from. */
  datatype ProxyRequest = ProxyRequest(pathParameters: map<string, string>, queryStringParameters: map<string, string>)

  /** A Go map lookup: the zero value "" for a missing key. */
  function Param(m: map<string, string>, key: string): string {
    if key in m then m[key] else ""
  }

  /** UserListRequestFromAPIGatewayProxyRequest: fails only when the limit does not scan. */
  function FromAPIGatewayProxyRequest(req: ProxyRequest): (r: Result<UserListRequest, ScanError>)
    ensures r.Failure? <==> StringToInt32Ptr(Param(req.queryStringParameters, "limit")).Failure?
  {
    var q := req.queryStringParameters;
    var limit :- StringToInt32Ptr(Param(q, "limit"));
    Success(UserListRequest(
      Param(req.pathParameters, "user_id"), Param(req.pathParameters, "ts"),
      Param(q, "origin"), Param(q, "operation_type"), Param(q, "after"), limit))
  }

  /**
   * The request's parts come from where the routes put them, a missing parameter reading
   * as "", and an absent or empty limit gives no limit.
   */
  lemma ProxyRequestFields(req: ProxyRequest)
    requires FromAPIGatewayProxyRequest(req).Success?
    ensures var r, path, q := FromAPIGatewayProxyRequest(req).value, req.pathParameters, req.queryStringParameters;
      (r.userId == if "user_id" in path then path["user_id"] else "")
      && (r.timestampPrefix == if "ts" in path then path["ts"] else "")
      && (r.origin == if "origin" in q then q["origin"] else "")
      && (r.operationType == if "operation_type" in q then q["operation_type"] else "")
      && (r.after == if "after" in q then q["after"] else "")
      && (r.limit.None? <==> "limit" !in q || q["limit"] == "")
      && (r.limit.Some? ==> StringToInt32Ptr(q["limit"]) == Success(r.limit))
  {
  }

  /** The request fails exactly when a non-empty limit parameter does not scan as an int32. */
  lemma ProxyRequestFails(req: ProxyRequest)
    ensures var q := req.queryStringParameters;
      FromAPIGatewayProxyRequest(req).Failure? <==> "limit" in q && q["limit"] != "" && ScanInt32(q["limit"]).Failure?
  {
  }

  /** Validate: UserID and TimestampPrefix are `required`, reported in that order. */
  function ValidateRequest(req: UserListRequest): (errs: seq<FieldError>)
    ensures errs == [] <==> req.userId != "" && req.timestampPrefix != ""
    ensures FieldError(UserID, Required) in errs <==> req.userId == ""
    ensures FieldError(TimestampPrefix, Required) in errs <==> req.timestampPrefix == ""
  {
    RequireNonEmpty(UserID, req.userId) + RequireNonEmpty(TimestampPrefix, req.timestampPrefix)
  }

  /** With neither key given, both are reported, UserID first; the other fields do not matter. */
  lemma MissingKeysReported(req: UserListRequest)
    requires req.userId == "" && req.timestampPrefix == ""
    ensures ValidateRequest(req) == [FieldError(UserID, Required), FieldError(TimestampPrefix, Required)]
  {
  }

  // ---------------------------------------------------------------------------
  // Expressions

  /** The key conditions of the expression builder that the request uses. */
  datatype KeyCondition =
    | KeyEqual(key: string, value: string)
    | KeyBeginsWith(key: string, prefix: string)
    | KeyAnd(left: KeyCondition, right: KeyCondition)

  /** An equality condition on an attribute name, the argument of one WithFilter call. */
  datatype Condition = NameEqual(name: string, value: string)

  /**
   * expression.Builder, as far as the request uses it: the key condition, and the
   * WithFilter calls in the order they were made (how the SDK combines them is not
   * modelled).
   */
  datatype Builder = Builder(keyCondition: Option<KeyCondition>, filterCalls: seq<Condition>)

  /** expression.Expression: what Build produced from a builder. */
  datatype Expression = Expression(keyCondition: Option<KeyCondition>, filterCalls: seq<Condition>)

  function NewBuilder(): Builder {
    Builder(None, [])
  }

  function WithKeyCondition(b: Builder, k: KeyCondition): (r: Builder)
    ensures r.keyCondition == Some(k) && r.filterCalls == b.filterCalls
  {
    b.(keyCondition := Some(k))
  }

  function WithFilter(b: Builder, c: Condition): (r: Builder)
    ensures r.keyCondition == b.keyCondition && r.filterCalls == b.filterCalls + [c]
  {
    b.(filterCalls := b.filterCalls + [c])
  }

  function Build(b: Builder): Expression {
    Expression(b.keyCondition, b.filterCalls)
  }

  /** ToExpression: the key condition, then a filter call for each non-empty filter field. */
  function ToExpression(req: UserListRequest): (e: Expression)
    ensures e.keyCondition == Some(KeyAnd(KeyEqual("user_id", req.userId), KeyBeginsWith("ts", req.timestampPrefix)))
    ensures NameEqual("origin", req.origin) in e.filterCalls <==> req.origin != ""
    ensures NameEqual("operation_type", req.operationType) in e.filterCalls <==> req.operationType != ""
    ensures e.filterCalls == [] <==> req.origin == "" && req.operationType == ""
    ensures |e.filterCalls| <= 2
    ensures forall c :: c in e.filterCalls ==> c == NameEqual("origin", req.origin) || c == NameEqual("operation_type", req.operationType)
    ensures |e.filterCalls| == 2 ==> e.filterCalls == [NameEqual("origin", req.origin), NameEqual("operation_type", req.operationType)]
  {
    var keyCond := KeyAnd(KeyEqual("user_id", req.userId), KeyBeginsWith("ts", req.timestampPrefix));
    var b0 := WithKeyCondition(NewBuilder(), keyCond);
    var b1 := if req.origin != "" then WithFilter(b0, NameEqual("origin", req.origin)) else b0;
    var b2 := if req.operationType != "" then WithFilter(b1, NameEqual("operation_type", req.operationType)) else b1;
    Build(b2)
  }

  /** The key condition depends on the partition and the prefix only, not on the filters, cursor or limit. */
  lemma KeyConditionIndependent(a: UserListRequest, b: UserListRequest)
    requires a.userId == b.userId && a.timestampPrefix == b.timestampPrefix
    ensures ToExpression(a).keyCondition == ToExpression(b).keyCondition
  {
  }

  /** The filter calls depend on the filter fields only. */
  lemma FiltersIndependent(a: UserListRequest, b: UserListRequest)
    requires a.origin == b.origin && a.operationType == b.operationType
    ensures ToExpression(a).filterCalls == ToExpression(b).filterCalls
  {
  }

  // ---------------------------------------------------------------------------
  // Query input

  /** dynamodb.QueryInput, with the expression kept as conditions rather than placeholder strings. */
  datatype QueryInput = QueryInput(
    tableName: string,
    keyCondition: Option<KeyCondition>,
    filterCalls: seq<Condition>,
    limit: Option<Int32>,
    exclusiveStartKey: AttrMap)

  /** ToQueryInput: the expression, the decoded cursor as the start key, and the limit as given. */
  function ToQueryInput(req: UserListRequest, tableName: string): (r: Result<QueryInput, CodecError>)
    ensures r.Failure? <==> FromBase64(req.after).Failure?
    ensures r.Failure? ==> r.error == FromBase64(req.after).error
    ensures r.Success? ==> r.value.exclusiveStartKey == ToAttributes(FromBase64(req.after).value)
    ensures r.Success? ==> r.value.limit == req.limit && r.value.tableName == tableName
    ensures r.Success? ==> r.value.keyCondition == ToExpression(req).keyCondition
    ensures r.Success? ==> r.value.filterCalls == ToExpression(req).filterCalls
  {
    var expr := ToExpression(req);
    var after :- FromBase64(req.after);
    Success(QueryInput(tableName, expr.keyCondition, expr.filterCalls, req.limit, ToAttributes(after)))
  }

  /** Without a cursor the query starts at the beginning: no start key. */
  lemma NoCursorNoStartKey(req: UserListRequest, tableName: string)
    requires req.after == ""
    ensures ToQueryInput(req, tableName).Success? && ToQueryInput(req, tableName).value.exclusiveStartKey.None?
  {
  }

  /** A cursor made from a key resumes the query at that key's attributes. */
  lemma CursorResumesAtKey(req: UserListRequest, tableName: string, pk: TransactionPK)
    requires req.after == ToBase64(pk)
    ensures ToQueryInput(req, tableName).Success?
    ensures ToQueryInput(req, tableName).value.exclusiveStartKey == ToAttributes(pk)
  {
    CursorRoundTrip(pk);
  }

  /** A cursor that does not decode makes the query input fail, whatever the other fields. */
  lemma BadCursorFails(req: UserListRequest, tableName: string)
    requires FromBase64(req.after).Failure?
    ensures ToQueryInput(req, tableName) == Failure(FromBase64(req.after).error)
  {
  }
}
