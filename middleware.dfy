/**
 * The HTTP side of the policy enforcement point (auth/middleware/middleware.go):
 * the subject rule and response classification of checkAuthorization, the
 * Fiber handler returned by Authorize, and GetApplicationToken.
 *
 * The PDP round trip (request construction, transport, body read, JSON
 * decoding) is an input: a PdpExchange saying how far the exchange got and
 * what the body decoded to. The unverified JWT parse is an input too: the
 * token's claims, or None when they could not be parsed.
 */
module Middleware {
  import opened Wrappers

  const NormalUser: string := "normal-user"
  const StatusUnauthorized: int := 401
  const StatusForbidden: int := 403
  const StatusInternalServerError: int := 500

  /** The PDP address and the enabled flag; never changed after construction. */
  datatype AuthClient = AuthClient(address: string, enabled: bool)

  /** Only an enabled client with an address consults the PDP; any other client lets everything through. */
  predicate Active(auth: AuthClient) {
    auth.enabled && auth.address != ""
  }

  /** A JWT claim value: a JSON string, or any other JSON value. */
  datatype ClaimValue = StringClaim(text: string) | OtherClaim

  type Claims = map<string, ClaimValue>

  /** Go's `v, _ := claims[name].(string)`: the string value, or "" when absent or not a string. */
  function StringClaimOr(claims: Claims, name: string): string {
    if name in claims && claims[name].StringClaim? then claims[name].text else ""
  }

  /** The caller is a normal user exactly when the `type` claim is the string "normal-user". */
  predicate IsNormalUser(claims: Claims) {
    "type" in claims && claims["type"] == StringClaim(NormalUser)
  }

  /**
   * The subject presented to the PDP. A normal user is presented under its
   * own `sub` claim; every other caller (no `type` claim, a non-string one,
   * or another value) is presented as the editor role of the route's base
   * subject.
   */
  function Subject(sub: string, claims: Claims): (r: string)
    ensures !IsNormalUser(claims) ==> r == "lerian/" + sub + "-editor-role"
    ensures IsNormalUser(claims) && "sub" in claims && claims["sub"].StringClaim? ==> r == "lerian/" + claims["sub"].text
    ensures IsNormalUser(claims) && !("sub" in claims && claims["sub"].StringClaim?) ==> r == "lerian/"
  {
    var userType := StringClaimOr(claims, "type");
    if userType != NormalUser then "lerian/" + sub + "-editor-role"
    else "lerian/" + StringClaimOr(claims, "sub")
  }

  /** The `{sub, resource, action}` body of an authorization query. */
  datatype Query = Query(sub: string, resource: string, action: string)

  /** The outbound POST to the PDP: its URL, its Authorization header and its body. */
  datatype AuthorizeRequest = AuthorizeRequest(url: string, authorization: string, query: Query)

  /** The PDP's verdict; its timestamp plays no part in any decision. */
  datatype AuthResponse = AuthResponse(authorized: bool)

  /** The structured error shape a PDP response body may decode to. */
  datatype ErrorBody = ErrorBody(code: string, message: string)

  /** How far one request to the PDP got, and what its body decoded to. */
  datatype PdpExchange<Payload> =
    | BuildError      // the body could not be serialised or the request could not be built
    | TransportError  // the request could not be sent or no response arrived
    | ReadError       // the response body could not be read
    | Response(status: int, errorShape: Option<ErrorBody>, payload: Option<Payload>)

  /** A response the PDP marks as a rejection: a non-empty error code on a status other than 500. */
  predicate IsStructuredRejection<P>(ex: PdpExchange<P>) {
    && ex.Response?
    && ex.errorShape.Some?
    && ex.errorShape.value.code != ""
    && ex.status != StatusInternalServerError
  }

  /** A response whose body decoded as an error shape that is not a rejection, and as a payload. */
  predicate IsDecodedAnswer<P>(ex: PdpExchange<P>) {
    && ex.Response?
    && ex.errorShape.Some?
    && !IsStructuredRejection(ex)
    && ex.payload.Some?
  }

  /** Why a PDP call failed without the PDP rejecting the query. */
  datatype FailureReason =
    | ClaimsUnparsed | RequestNotBuilt | Unreachable | BodyUnread | ErrorShapeMalformed | PayloadMalformed

  /** The error of a PDP call: the PDP's own structured rejection, or a failure. */
  datatype PdpError = Rejection(body: ErrorBody) | Failure(reason: FailureReason)

  /** checkAuthorization's `(authorized, status, error)`, with the request it sent, if any. */
  datatype Decision = Decision(authorized: bool, status: int, err: Option<PdpError>, sent: Option<AuthorizeRequest>)

  /** The request checkAuthorization sends: the token is forwarded unchanged as the Authorization header. */
  function AuthorizeRequestFor(auth: AuthClient, subject: string, resource: string, action: string, accessToken: string): AuthorizeRequest {
    AuthorizeRequest(auth.address + "/v1/authorize", accessToken, Query(subject, resource, action))
  }

  /**
   * checkAuthorization. A structured rejection passes the PDP's own status
   * and error body on; every other failure is status 500; otherwise the
   * PDP's verdict and status are returned with no error.
   */
  function CheckAuthorization(
    auth: AuthClient, sub: string, resource: string, action: string, accessToken: string,
    claims: Option<Claims>, ex: PdpExchange<AuthResponse>): (d: Decision)
    ensures d.err.Some? ==> !d.authorized
    ensures d.err.Some? && d.err.value.Failure? ==> d.status == StatusInternalServerError
    ensures claims.None? ==> d.err == Some(Failure(ClaimsUnparsed)) && d.sent.None?
    ensures (d.err.Some? && d.err.value.Rejection?) <==> claims.Some? && IsStructuredRejection(ex)
    ensures d.err.Some? && d.err.value.Rejection? ==>
      d.status == ex.status && d.err.value.body == ex.errorShape.value
    ensures d.err.None? <==> claims.Some? && IsDecodedAnswer(ex)
    ensures d.err.None? ==> d.authorized == ex.payload.value.authorized && d.status == ex.status
    ensures d.sent.Some? <==> claims.Some? && !ex.BuildError?
    ensures d.sent.Some? ==>
      d.sent.value == AuthorizeRequestFor(auth, Subject(sub, claims.value), resource, action, accessToken)
  {
    if claims.None? then
      Decision(false, StatusInternalServerError, Some(Failure(ClaimsUnparsed)), None)
    else
      var request := AuthorizeRequestFor(auth, Subject(sub, claims.value), resource, action, accessToken);
      match ex
      case BuildError =>
        Decision(false, StatusInternalServerError, Some(Failure(RequestNotBuilt)), None)
      case TransportError =>
        Decision(false, StatusInternalServerError, Some(Failure(Unreachable)), Some(request))
      case ReadError =>
        Decision(false, StatusInternalServerError, Some(Failure(BodyUnread)), Some(request))
      case Response(status, errorShape, payload) =>
        if errorShape.None? then
          Decision(false, StatusInternalServerError, Some(Failure(ErrorShapeMalformed)), Some(request))
        else if errorShape.value.code != "" && status != StatusInternalServerError then
          Decision(false, status, Some(Rejection(errorShape.value)), Some(request))
        else if payload.None? then
          Decision(false, StatusInternalServerError, Some(Failure(PayloadMalformed)), Some(request))
        else
          Decision(payload.value.authorized, status, None, Some(request))
  }

  /** A response body: plain text, or the PDP's error shape as JSON. */
  datatype Body = Text(text: string) | Json(error: ErrorBody)

  /** What the Fiber handler does: hand the request on (c.Next()), or answer it. */
  datatype HttpOutcome = Pass | Reject(status: int, body: Body)

  /** The handler's answer once checkAuthorization has returned. */
  function HttpOutcomeOf(d: Decision): HttpOutcome {
    match d.err
    case Some(Rejection(body)) => Reject(d.status, Json(body))
    case Some(Failure(_)) => Reject(StatusInternalServerError, Text("Internal Server Error"))
    case None => if d.authorized then Pass else Reject(StatusForbidden, Text("Forbidden"))
  }

  /** The handler's answer together with the authorization request it sent to the PDP, if any. */
  datatype HttpResult = HttpResult(outcome: HttpOutcome, sent: Option<AuthorizeRequest>)

  /**
   * The Fiber handler returned by Authorize(sub, resource, action).
   * `headerToken` is what the Authorization header yielded, `isNilOrEmpty`
   * the emptiness test applied to it (which flags at least the empty
   * string), `claims` the unverified parse of that token and `ex` the PDP
   * exchange. The PDP is asked about exactly the handler's own resource and
   * action, for the subject the claims give, with the header token forwarded
   * unchanged.
   */
  function Authorize(
    auth: AuthClient, sub: string, resource: string, action: string,
    headerToken: string, isNilOrEmpty: string -> bool,
    claims: Option<Claims>, ex: PdpExchange<AuthResponse>): (r: HttpResult)
    requires isNilOrEmpty("")
    ensures !Active(auth) ==> r == HttpResult(Pass, None)
    ensures Active(auth) && isNilOrEmpty(headerToken) ==>
      r == HttpResult(Reject(StatusUnauthorized, Text("Missing Token")), None)
    ensures Active(auth) && headerToken == "" ==> r.outcome == Reject(StatusUnauthorized, Text("Missing Token"))
    ensures r.sent.Some? <==> Active(auth) && !isNilOrEmpty(headerToken) && claims.Some? && !ex.BuildError?
    ensures r.sent.Some? ==>
      r.sent.value == AuthorizeRequest(auth.address + "/v1/authorize", headerToken, Query(Subject(sub, claims.value), resource, action))
    ensures Active(auth) && !isNilOrEmpty(headerToken) ==>
      var d := CheckAuthorization(auth, sub, resource, action, headerToken, claims, ex);
      && r == HttpResult(HttpOutcomeOf(d), d.sent)
      && (r.outcome.Pass? <==> d.err.None? && d.authorized)
      && (r.outcome == Reject(StatusForbidden, Text("Forbidden")) <==> d.err.None? && !d.authorized)
      && (r.outcome == Reject(StatusInternalServerError, Text("Internal Server Error")) <==> d.err.Some? && d.err.value.Failure?)
      && (r.outcome.Reject? && r.outcome.body.Json? <==> d.err.Some? && d.err.value.Rejection?)
      && (r.outcome.Reject? && r.outcome.body.Json? ==> r.outcome.status == ex.status && r.outcome.body.error == ex.errorShape.value)
  {
    if !Active(auth) then
      HttpResult(Pass, None)
    else if isNilOrEmpty(headerToken) then
      HttpResult(Reject(StatusUnauthorized, Text("Missing Token")), None)
    else
      var d := CheckAuthorization(auth, sub, resource, action, headerToken, claims, ex);
      HttpResult(HttpOutcomeOf(d), d.sent)
  }

  /** The PDP's OAuth2 token response: only its access token is ever read. */
  datatype OAuth2Token = OAuth2Token(accessToken: string)

  /** The outbound client-credentials POST: its URL and its body. */
  datatype TokenRequest = TokenRequest(url: string, grantType: string, clientId: string, clientSecret: string)

  /** GetApplicationToken's `(token, error)`, with the request it sent, if any. */
  datatype AppToken = AppToken(token: string, err: Option<PdpError>, sent: Option<TokenRequest>)

  function TokenRequestFor(auth: AuthClient, clientId: string, clientSecret: string): TokenRequest {
    TokenRequest(auth.address + "/v1/login/oauth/access_token", "client_credentials", clientId, clientSecret)
  }

  /**
   * GetApplicationToken. An inactive client is a no-op returning no token
   * and no error; an error always comes with no token; on success the
   * token is exactly the PDP's access token.
   */
  function GetApplicationToken(auth: AuthClient, clientId: string, clientSecret: string, ex: PdpExchange<OAuth2Token>): (r: AppToken)
    ensures !Active(auth) ==> r == AppToken("", None, None)
    ensures r.err.Some? ==> r.token == ""
    ensures (r.err.Some? && r.err.value.Rejection?) <==> Active(auth) && IsStructuredRejection(ex)
    ensures r.err.Some? && r.err.value.Rejection? ==> r.err.value.body == ex.errorShape.value
    ensures r.err.None? <==> !Active(auth) || IsDecodedAnswer(ex)
    ensures Active(auth) && r.err.None? ==> r.token == ex.payload.value.accessToken
    ensures r.sent.Some? <==> Active(auth) && !ex.BuildError?
    ensures r.sent.Some? ==> r.sent.value == TokenRequestFor(auth, clientId, clientSecret)
  {
    if !Active(auth) then
      AppToken("", None, None)
    else
      var request := TokenRequestFor(auth, clientId, clientSecret);
      match ex
      case BuildError => AppToken("", Some(Failure(RequestNotBuilt)), None)
      case TransportError => AppToken("", Some(Failure(Unreachable)), Some(request))
      case ReadError => AppToken("", Some(Failure(BodyUnread)), Some(request))
      case Response(status, errorShape, payload) =>
        if errorShape.None? then
          AppToken("", Some(Failure(ErrorShapeMalformed)), Some(request))
        else if errorShape.value.code != "" && status != StatusInternalServerError then
          AppToken("", Some(Rejection(errorShape.value)), Some(request))
        else if payload.None? then
          AppToken("", Some(Failure(PayloadMalformed)), Some(request))
        else
          AppToken(payload.value.accessToken, None, Some(request))
  }

  /**
   * The PDP is consulted only by an active client holding a token: before
   * that, nothing is sent and the outcome is the same whatever the claims and
   * the PDP would say.
   */
  lemma AuthorizeConsultsPdpOnlyWithToken(
    auth: AuthClient, sub: string, resource: string, action: string,
    headerToken: string, isNilOrEmpty: string -> bool,
    claims1: Option<Claims>, ex1: PdpExchange<AuthResponse>,
    claims2: Option<Claims>, ex2: PdpExchange<AuthResponse>)
    requires isNilOrEmpty("")
    requires !Active(auth) || isNilOrEmpty(headerToken)
    ensures Authorize(auth, sub, resource, action, headerToken, isNilOrEmpty, claims1, ex1)
         == Authorize(auth, sub, resource, action, headerToken, isNilOrEmpty, claims2, ex2)
    ensures Authorize(auth, sub, resource, action, headerToken, isNilOrEmpty, claims1, ex1).sent.None?
  {
  }

  /**
   * A PDP answer with status 500 and a structured error body is not a
   * rejection. Go's JSON decoder ignores the fields a struct lacks, so the
   * same body `{"code": ..., "message": ...}` also decodes as a verdict with
   * `authorized` false: the call returns no error and the HTTP caller gets
   * 403 "Forbidden", not 500.
   */
  lemma ServerErrorBodyIsForbidden(
    auth: AuthClient, sub: string, resource: string, action: string,
    headerToken: string, isNilOrEmpty: string -> bool, claims: Claims, e: ErrorBody)
    requires isNilOrEmpty("") && Active(auth) && !isNilOrEmpty(headerToken) && e.code != ""
    ensures var ex := Response(StatusInternalServerError, Some(e), Some(AuthResponse(false)));
      && CheckAuthorization(auth, sub, resource, action, headerToken, Some(claims), ex).err.None?
      && Authorize(auth, sub, resource, action, headerToken, isNilOrEmpty, Some(claims), ex).outcome
         == Reject(StatusForbidden, Text("Forbidden"))
  {
  }

  /**
   * Normal users and editor roles share one subject space: a normal user
   * whose `sub` claim is "<base>-editor-role" is presented to the PDP exactly
   * as the editor role of <base>.
   */
  lemma SubjectsCanCoincide(base: string, other: string)
    ensures var user := map["type" := StringClaim(NormalUser), "sub" := StringClaim(base + "-editor-role")];
      Subject(other, user) == Subject(base, map[])
  {
    var user := map["type" := StringClaim(NormalUser), "sub" := StringClaim(base + "-editor-role")];
    assert IsNormalUser(user);
    assert "lerian/" + (base + "-editor-role") == "lerian/" + base + "-editor-role";
  }
}
