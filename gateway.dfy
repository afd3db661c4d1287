/**
 * The request decisions of bin/web.js: the store middleware in front of every
 * store route (store id, credential headers, the Store API's verdict) and the
 * S3 passthrough endpoint (body shape, method name, the primary space's result).
 */
module Gateway {
  import opened Common
  import opened Text
  import opened Errors
  import opened Auth
  import opened Tenant

  const InvalidStoreMessage: string := "Nonexistent or invalid Store ID"
  const MissingCredentialsMessage: string := "Undefined user ID (X-My-ID) or Access Token (X-Access-Token)"
  const UnauthorizedMessage: string :=
    "Unauthorized, invalid X-My-ID and X-Access-Token authentication headers"

  /** Whether `parseInt(req.params.store, 10)` yields a number of at least 100 (NaN compares false). */
  predicate ValidStoreId(storeParam: string)
  {
    ParseInt(storeParam).Some? && ParseInt(storeParam).value >= 100
  }

  /** The middleware before the Store API is asked: the Store API is consulted, or the request is refused. */
  datatype Admission = Consult(storeId: nat) | Refuse(error: ErrorBody)

  /**
   * The synchronous part of the store middleware. A header that is absent or
   * empty is the empty string (both are falsy).
   */
  function Admit(storeParam: string, myId: string, accessToken: string): (r: Admission)
    ensures r.Consult? <==> ValidStoreId(storeParam) && myId != [] && accessToken != []
    ensures r.Consult? ==> ParseInt(storeParam) == Some(r.storeId as int)
    ensures !ValidStoreId(storeParam) ==> r == Refuse(SendError(403, 101, InvalidStoreMessage, None))
    ensures ValidStoreId(storeParam) && (myId == [] || accessToken == []) ==>
      r == Refuse(SendError(403, 102, MissingCredentialsMessage, None))
  {
    var storeId := ParseInt(storeParam);
    if storeId.Some? && storeId.value >= 100 then
      if myId != [] && accessToken != [] then Consult(storeId.value)
      else Refuse(SendError(403, 102, MissingCredentialsMessage, None))
    else Refuse(SendError(403, 101, InvalidStoreMessage, None))
  }

  /** The JavaScript truthiness of the second argument of the auth callback. */
  predicate ResTruthy(res: AuthRes)
  {
    match res
    case Authorized(ok) => ok
    case ResponseObject(_) => true
    case NoResponse => false
  }

  /** The end of the middleware: the request goes on with its store id, or an error is sent. */
  datatype Gate = Proceed(storeId: nat) | Deny(error: ErrorBody)

  /** `authCallback(err, authRes)`. */
  function OnAuthReply(storeId: nat, reply: AuthReply): (r: Gate)
    ensures r.Proceed? <==> reply == AuthReply(None, Authorized(true))
    ensures r.Proceed? ==> r.storeId == storeId
    ensures reply.err.None? && reply.res != Authorized(true) ==>
      r == Deny(SendError(401, 103, UnauthorizedMessage, Some(NoAuthorization)))
    ensures reply.err.Some? && ResTruthy(reply.res) ==> r == Deny(SendError(400, 104, reply.err.value, None))
    ensures reply.err.Some? && !ResTruthy(reply.res) ==> r == Deny(SendError(500, 105, [], None))
  {
    if reply.err.None? then
      if reply.res == Authorized(true) then Proceed(storeId)
      else Deny(SendError(401, 103, UnauthorizedMessage, Some(NoAuthorization)))
    else if ResTruthy(reply.res) then Deny(SendError(400, 104, reply.err.value, None))
    else Deny(SendError(500, 105, [], None))
  }

  /** The whole middleware, with the Store API's reply to the queued request as an input. */
  function StoreMiddleware(storeParam: string, myId: string, accessToken: string, storeApi: HttpResult): Gate
  {
    match Admit(storeParam, myId, accessToken)
    case Refuse(error) => Deny(error)
    case Consult(storeId) => OnAuthReply(storeId, Classify(storeApi))
  }

  /**
   * The middleware end to end: a request goes on exactly when its store id
   * parses to at least 100, both headers are present and the Store API answers
   * 2xx; a 401 becomes 401/103, another status 400/104 naming the status, and a
   * network failure 500/105 with the default message.
   */
  lemma StoreMiddlewareTable(storeParam: string, myId: string, accessToken: string, storeApi: HttpResult)
    ensures var g := StoreMiddleware(storeParam, myId, accessToken, storeApi);
      && (g.Proceed? <==>
            ValidStoreId(storeParam) && myId != [] && accessToken != []
            && storeApi.Response? && 200 <= storeApi.statusCode < 300)
      && (g.Proceed? ==> ParseInt(storeParam) == Some(g.storeId as int) && g.storeId >= 100)
      && (Admit(storeParam, myId, accessToken).Consult? && storeApi == Response(401) ==>
            g.Deny? && g.error.status == 401 && g.error.errorCode == 103)
      && (Admit(storeParam, myId, accessToken).Consult? && storeApi.Response?
          && !(200 <= storeApi.statusCode < 300) && storeApi.statusCode != 401 ==>
            g.Deny? && g.error.status == 400 && g.error.errorCode == 104
            && Contains(g.error.message, Decimal(storeApi.statusCode)))
      && (Admit(storeParam, myId, accessToken).Consult? && storeApi.NetworkError? ==>
            g == Deny(ErrorBody(500, 105, UnknownError, UnexpectedError)))
  {
    var a := Admit(storeParam, myId, accessToken);
    if a.Consult? {
      var reply := Classify(storeApi);
      if storeApi.Response? && !(200 <= storeApi.statusCode < 300) && storeApi.statusCode != 401 {
        assert reply.err.Some? && reply.res == ResponseObject(storeApi.statusCode);
      }
    }
  }

  /**
   * The lowest id the middleware admits is not scoped: with any credentials,
   * store 100 is consulted, yet its S3 parameters are never prefixed.
   */
  lemma StoreHundredUnscoped(myId: string, accessToken: string, params: Params)
    requires myId != [] && accessToken != []
    ensures Admit("100", myId, accessToken) == Consult(100)
    ensures TenantScoped(params, Some(100)) == params
  {
    assert Decimal(100) == "100" by {
      assert Decimal(10) == "10" by {
        assert Decimal(1) == "1";
      }
    }
    ParseDecimal(100);
  }

  /** A JSON request body as `body-parser` leaves it; `Absent` is a request without one. */
  datatype Json =
    | JObject(fields: Params)
    | JArray(items: seq<Value>)
    | JString(s: string)
    | JNumber(n: int)
    | JBool(b: bool)
    | JNull
    | Absent

  predicate Truthy(body: Json)
  {
    match body
    case JString(s) => s != []
    case JNumber(n) => n != 0
    case JBool(b) => b
    case JNull => false
    case Absent => false
    case _ => true
  }

  /** The method parameters taken from the body: a falsy body means none, an object is used as it is. */
  function BodyParams(body: Json): (r: Option<Params>)
    ensures r.Some? <==> !Truthy(body) || body.JObject?
    ensures body.JObject? ==> r == Some(body.fields)
    ensures !Truthy(body) ==> r == Some(map[])
  {
    if !Truthy(body) then Some(map[])
    else if body.JObject? then Some(body.fields)
    else None
  }

  const InvalidBodyMessage: string := "Request body (method params) must be empty or a valid JSON object"
  const ObjectMethodsOnlyMessage: string := "You are able to call only object methods"
  const UnknownMethodMessage: string :=
    "Invalid method name, not found\nAvailable AWS S3 methods:\nhttps://docs.aws.amazon.com/AWSJavaScriptSDK/latest/AWS/S3.html"

  /** The response of the S3 endpoint: the primary space's data, or an error. */
  datatype S3Response = Data(data: Value) | S3Error(error: ErrorBody)

  /**
   * `POST /:store/s3/:method.json` after the middleware: the body is checked
   * first, then the method name must contain `Object`, then it must name a
   * function of the S3 client (`s3Methods`); only then is `runMethod` called.
   */
  method HandleS3(body: Json, methodName: string, s3Methods: set<string>, storeId: nat,
                  spaces: seq<Space>, outcomes: seq<Settled<Value>>)
    returns (response: S3Response, calls: seq<SpaceCall>)
    requires |spaces| > 0 && |outcomes| == |spaces|
    ensures BodyParams(body).None? ==>
      response == S3Error(SendError(400, 3013, InvalidBodyMessage, None)) && calls == []
    ensures BodyParams(body).Some? && !Contains(methodName, "Object") ==>
      response == S3Error(SendError(403, 3011, ObjectMethodsOnlyMessage, None)) && calls == []
    ensures BodyParams(body).Some? && Contains(methodName, "Object") && methodName !in s3Methods ==>
      response == S3Error(SendError(404, 3012, UnknownMethodMessage, None)) && calls == []
    ensures BodyParams(body).Some? && Contains(methodName, "Object") && methodName in s3Methods ==>
      && calls != []
      && calls[|calls| - 1]
           == SpaceCall(0, methodName, WithBucket(TenantScoped(BodyParams(body).value, Some(storeId)), spaces[0].bucket))
      && (outcomes[0].Resolved? ==> response == Data(outcomes[0].value))
      && (outcomes[0].Rejected? ==> response == S3Error(SendError(400, 3019, outcomes[0].message, None)))
  {
    var params := BodyParams(body);
    calls := [];
    if params.None? {
      response := S3Error(SendError(400, 3013, InvalidBodyMessage, None));
    } else if !Contains(methodName, "Object") {
      response := S3Error(SendError(403, 3011, ObjectMethodsOnlyMessage, None));
    } else if methodName !in s3Methods {
      response := S3Error(SendError(404, 3012, UnknownMethodMessage, None));
    } else {
      var result;
      calls, result := RunMethod(methodName, params.value, Some(storeId), spaces, outcomes);
      match result
      case Resolved(data) =>
        response := Data(data);
      case Rejected(message) =>
        response := S3Error(SendError(400, 3019, message, None));
    }
  }
}
