/**
 * The RPC side of the policy enforcement point
 * (auth/middleware/middlewareGRPC.go): bearer-token extraction from call
 * metadata, per-method policy resolution, the HTTP-to-RPC status table,
 * the metadata subject resolver and the unary interceptor's sequence of
 * checks. The PDP call itself is Middleware.CheckAuthorization.
 */
module MiddlewareGrpc {
  import opened Wrappers
  import opened Text
  import opened Middleware

  /** The authorization target of one RPC method. */
  datatype Policy = Policy(resource: string, action: string)

  /** Incoming call metadata: lower-case keys, each with its list of values. */
  type Metadata = map<string, seq<string>>

  /**
   * metadata.MD.Get: the values under the key, none when it is absent.
   * Get lower-cases its key first; every key passed here is lower-case
   * already ("authorization", and SubFromMetadata's normalised key), so the
   * lookup is direct.
   */
  function MdGet(md: Metadata, key: string): seq<string> {
    if key in md then md[key] else []
  }

  /** The RPC request message, in its serialised form; the interceptor only hands it on. */
  type Request = seq<bv8>

  /**
   * A subject resolver: from the call's metadata (None when the context
   * carries none), the full method name and the request, a subject or an
   * error message.
   */
  type Resolver = (Option<Metadata>, string, Request) -> Result<string, string>

  /** The interceptor's configuration; `methodPolicies` is None for a nil map. */
  datatype PolicyConfig = PolicyConfig(
    methodPolicies: Option<map<string, Policy>>,
    defaultPolicy: Option<Policy>,
    subResolver: Option<Resolver>)

  /** The RPC status codes the interceptor produces. */
  datatype Code = Unauthenticated | PermissionDenied | Internal

  datatype Status = Status(code: Code, message: string)

  /** What the interceptor does: run the wrapped handler and return its result unmodified, or fail the call. */
  datatype RpcOutcome = CallHandler | RpcError(status: Status)

  const MissingToken: Status := Status(Unauthenticated, "missing token")
  const ConfigurationError: Status := Status(Internal, "internal configuration error")
  const Denied: Status := Status(PermissionDenied, "forbidden")

  /** Every message an RPC caller can be shown: none of them carries PDP or configuration detail. */
  const FixedMessages: set<string> :=
    {"missing token", "internal configuration error", "unauthenticated", "forbidden", "internal error"}

  /**
   * `s` starts with the auth scheme "Bearer " in any letter case. On bytes
   * this is strings.EqualFold(s[:7], "bearer "); no letter of "bearer" has a
   * non-ASCII case variant, so the test is ASCII case-insensitive.
   */
  predicate HasBearerScheme(s: string) {
    |s| >= 7 && Lower(s[..7]) == "bearer "
  }

  /**
   * stripBearer: the trimmed credential, without its "Bearer " scheme when
   * it has one. The result never has white space at either end.
   */
  function StripBearer(v: string): (r: string)
    ensures IsTrimmed(r)
    ensures |r| <= |v|
    ensures !HasBearerScheme(TrimSpace(v)) ==> r == TrimSpace(v)
  {
    var s := TrimSpace(v);
    if HasBearerScheme(s) then TrimSpace(s[7..]) else s
  }

  /**
   * StripBearer removes only what it should: `v` is a run of white space,
   * then (only when the trimmed value has the scheme) seven runes spelling
   * "bearer " in some letter case and more white space, then the result,
   * then a last run of white space.
   */
  lemma StripBearerSplit(v: string) returns (lead: string, scheme: string, gap: string, trail: string)
    ensures v == lead + scheme + gap + StripBearer(v) + trail
    ensures AllSpace(lead) && AllSpace(gap) && AllSpace(trail)
    ensures HasBearerScheme(TrimSpace(v)) ==> Lower(scheme) == "bearer "
    ensures !HasBearerScheme(TrimSpace(v)) ==> scheme == [] && gap == []
  {
    if HasBearerScheme(TrimSpace(v)) {
      scheme := TrimSpace(v)[..7];
      lead, gap, trail := SchemeSplit(v);
    } else {
      scheme, gap := [], [];
      lead, trail := NoSchemeSplit(v);
    }
  }

  /** StripBearerSplit without the scheme: only white space around the trimmed value. */
  lemma NoSchemeSplit(v: string) returns (lead: string, trail: string)
    requires !HasBearerScheme(TrimSpace(v))
    ensures v == lead + [] + [] + StripBearer(v) + trail
    ensures AllSpace(lead) && AllSpace(trail)
  {
    lead, trail := TrimSpaceSplit(v);
    assert lead + [] + [] == lead;
  }

  /**
   * The scheme branch of StripBearerSplit: white space, the first seven
   * runes of the trimmed value, white space, the trimmed rest, white space.
   */
  lemma SchemeSplit(v: string) returns (lead: string, gap: string, trail: string)
    requires HasBearerScheme(TrimSpace(v))
    ensures v == lead + TrimSpace(v)[..7] + gap + StripBearer(v) + trail
    ensures AllSpace(lead) && AllSpace(gap) && AllSpace(trail)
  {
    var trail1, trail2;
    assert StripBearer(v) == TrimSpace(TrimSpace(v)[7..]);
    lead, trail1 := TrimSpaceSplit(v);
    gap, trail2 := TrimSpaceSplit(TrimSpace(v)[7..]);
    trail := trail2 + trail1;
    AllSpaceConcat(trail2, trail1);
    Regroup(v, lead, TrimSpace(v), gap, TrimSpace(TrimSpace(v)[7..]), trail2, trail1);
  }

  /**
   * The concatenation behind SchemeSplit: the scheme split off the trimmed
   * value, and its rest trimmed again. Kept as a lemma of its own: proved
   * inside SchemeSplit, beside the facts about the trims, it is too costly.
   */
  lemma Regroup(v: string, lead: string, s: string, gap: string, r: string, trail2: string, trail1: string)
    requires v == lead + s + trail1
    requires |s| >= 7 && s[7..] == gap + r + trail2
    ensures v == lead + s[..7] + gap + r + (trail2 + trail1)
  {
    assert s == s[..7] + s[7..];
  }

  /**
   * extractTokenFromMD: the stripped first "authorization" value. It is
   * found only when the call has metadata, the key has a value and that
   * first value strips to a non-empty token; a found token is never empty.
   */
  function ExtractTokenFromMD(md: Option<Metadata>): (r: (string, bool))
    ensures r.1 ==> r.0 != "" && IsTrimmed(r.0)
    ensures !r.1 ==> r.0 == ""
    ensures r.1 <==>
      md.Some? && |MdGet(md.value, "authorization")| > 0 && StripBearer(MdGet(md.value, "authorization")[0]) != ""
    ensures r.1 ==> r.0 == StripBearer(MdGet(md.value, "authorization")[0])
  {
    if md.None? then ("", false)
    else
      var vals := MdGet(md.value, "authorization");
      if |vals| == 0 then ("", false)
      else
        var token := StripBearer(vals[0]);
        if token == "" then ("", false) else (token, true)
  }

  /** The method has its own entry in a non-nil policy map. */
  predicate HasMethodPolicy(cfg: PolicyConfig, fullMethod: string) {
    cfg.methodPolicies.Some? && fullMethod in cfg.methodPolicies.value
  }

  /**
   * policyForMethod: the method's own policy wins, the default policy is
   * the fallback, and with neither the lookup fails with the zero Policy.
   */
  function PolicyForMethod(cfg: PolicyConfig, fullMethod: string): (r: (Policy, bool))
    ensures HasMethodPolicy(cfg, fullMethod) ==> r == (cfg.methodPolicies.value[fullMethod], true)
    ensures !HasMethodPolicy(cfg, fullMethod) && cfg.defaultPolicy.Some? ==> r == (cfg.defaultPolicy.value, true)
    ensures r.1 <==> HasMethodPolicy(cfg, fullMethod) || cfg.defaultPolicy.Some?
    ensures !r.1 ==> r.0 == Policy("", "")
  {
    if cfg.methodPolicies.Some? && fullMethod in cfg.methodPolicies.value then
      (cfg.methodPolicies.value[fullMethod], true)
    else if cfg.defaultPolicy.Some? then
      (cfg.defaultPolicy.value, true)
    else
      (Policy("", ""), false)
  }

  /**
   * grpcErrorFromHTTP: a total table. 401 is Unauthenticated, 403 is
   * PermissionDenied and every other status is Internal, each with a fixed
   * message.
   */
  function GrpcErrorFromHttp(httpStatus: int): (s: Status)
    ensures s.code == Unauthenticated <==> httpStatus == StatusUnauthorized
    ensures s.code == PermissionDenied <==> httpStatus == StatusForbidden
    ensures s.code == Internal <==> httpStatus != StatusUnauthorized && httpStatus != StatusForbidden
    ensures s.message in FixedMessages
    ensures s.code == Unauthenticated ==> s.message == "unauthenticated"
    ensures s.code == PermissionDenied ==> s.message == "forbidden"
    ensures s.code == Internal ==> s.message == "internal error"
  {
    if httpStatus == StatusUnauthorized then Status(Unauthenticated, "unauthenticated")
    else if httpStatus == StatusForbidden then Status(PermissionDenied, "forbidden")
    else Status(Internal, "internal error")
  }

  /** The first value under an already normalised key, or "" when there is none. */
  function FirstValueOr(md: Option<Metadata>, key: string): string {
    if md.None? then ""
    else
      var vals := MdGet(md.value, key);
      if |vals| == 0 then "" else vals[0]
  }

  /**
   * SubFromMetadata: a resolver that never fails and answers the first
   * metadata value under the key, trimmed and lower-cased once when the
   * resolver is made, or "" when there is no such value.
   */
  function SubFromMetadata(key: string): (resolve: Resolver)
    ensures forall md, fullMethod, req :: resolve(md, fullMethod, req).Ok?
    ensures forall md: Option<Metadata>, fullMethod: string, req: Request ::
      var k := Lower(TrimSpace(key));
      resolve(md, fullMethod, req).value ==
        if md.Some? && k in md.value && |md.value[k]| > 0 then md.value[k][0] else ""
  {
    var k := Lower(TrimSpace(key));
    (md: Option<Metadata>, _: string, _: Request) => Ok(FirstValueOr(md, k))
  }

  /** The subject base: the resolver's answer, or "" when no resolver is configured. */
  function ResolveSubject(cfg: PolicyConfig, md: Option<Metadata>, fullMethod: string, req: Request): Result<string, string> {
    if cfg.subResolver.None? then Ok("") else cfg.subResolver.value(md, fullMethod, req)
  }

  /** The interceptor reaches the PDP: an active client, an accepted token, a policy and a subject. */
  predicate ReachesPdp(
    auth: Option<AuthClient>, cfg: PolicyConfig, isNilOrEmpty: string -> bool,
    md: Option<Metadata>, fullMethod: string, req: Request)
  {
    var token := ExtractTokenFromMD(md);
    && auth.Some? && Active(auth.value)
    && token.1 && !isNilOrEmpty(token.0)
    && PolicyForMethod(cfg, fullMethod).1
    && ResolveSubject(cfg, md, fullMethod, req).Ok?
  }

  /** The interceptor's answer once checkAuthorization has returned. */
  function RpcOutcomeOf(d: Decision): RpcOutcome {
    if d.err.Some? then RpcError(GrpcErrorFromHttp(d.status))
    else if !d.authorized then RpcError(Denied)
    else CallHandler
  }

  /** The interceptor's answer together with the authorization request it sent to the PDP, if any. */
  datatype RpcResult = RpcResult(outcome: RpcOutcome, sent: Option<AuthorizeRequest>)

  /**
   * The unary interceptor made by NewGRPCAuthUnaryPolicy(auth, cfg), for one
   * call: `auth` is None for a nil client, `md` the incoming metadata,
   * `isNilOrEmpty` the emptiness test applied to the token, `claims` the
   * unverified parse of the token and `ex` the PDP exchange. Checks run in
   * order (token, policy, subject, PDP) and the handler runs only when the
   * client is inactive or the PDP authorized the call. The PDP is asked
   * about the method's policy, for the resolved subject, with the stripped
   * token.
   */
  function UnaryPolicyInterceptor(
    auth: Option<AuthClient>, cfg: PolicyConfig, isNilOrEmpty: string -> bool,
    md: Option<Metadata>, fullMethod: string, req: Request,
    claims: Option<Claims>, ex: PdpExchange<AuthResponse>): (r: RpcResult)
    ensures auth.None? || !Active(auth.value) ==> r == RpcResult(CallHandler, None)
    ensures auth.Some? && Active(auth.value) ==>
      var token := ExtractTokenFromMD(md);
      var policy := PolicyForMethod(cfg, fullMethod);
      && (!token.1 || isNilOrEmpty(token.0) ==> r.outcome == RpcError(MissingToken))
      && (token.1 && !isNilOrEmpty(token.0) && !policy.1 ==> r.outcome == RpcError(ConfigurationError))
      && (token.1 && !isNilOrEmpty(token.0) && policy.1 && ResolveSubject(cfg, md, fullMethod, req).Err? ==>
            r.outcome == RpcError(ConfigurationError))
    ensures r.sent.Some? <==> ReachesPdp(auth, cfg, isNilOrEmpty, md, fullMethod, req) && claims.Some? && !ex.BuildError?
    ensures r.sent.Some? ==>
      && r.sent.value.url == auth.value.address + "/v1/authorize"
      && r.sent.value.authorization == ExtractTokenFromMD(md).0
      && r.sent.value.query.resource == PolicyForMethod(cfg, fullMethod).0.resource
      && r.sent.value.query.action == PolicyForMethod(cfg, fullMethod).0.action
      && r.sent.value.query.sub == Subject(ResolveSubject(cfg, md, fullMethod, req).value, claims.value)
    ensures cfg.subResolver.None? && r.sent.Some? ==> r.sent.value.query.sub == Subject("", claims.value)
    ensures ReachesPdp(auth, cfg, isNilOrEmpty, md, fullMethod, req) ==>
      var token := ExtractTokenFromMD(md).0;
      var policy := PolicyForMethod(cfg, fullMethod).0;
      var sub := ResolveSubject(cfg, md, fullMethod, req).value;
      var d := CheckAuthorization(auth.value, sub, policy.resource, policy.action, token, claims, ex);
      && r == RpcResult(RpcOutcomeOf(d), d.sent)
      && (d.err.Some? ==> r.outcome == RpcError(GrpcErrorFromHttp(d.status)))
      && (d.err.None? && !d.authorized ==> r.outcome == RpcError(Denied))
      && (r.outcome.CallHandler? <==> d.err.None? && d.authorized)
    ensures r.outcome.RpcError? ==> r.outcome.status.message in FixedMessages
  {
    if auth.None? || !Active(auth.value) then
      RpcResult(CallHandler, None)
    else
      var (token, ok) := ExtractTokenFromMD(md);
      if !ok || isNilOrEmpty(token) then
        RpcResult(RpcError(MissingToken), None)
      else
        var (policy, found) := PolicyForMethod(cfg, fullMethod);
        if !found then
          RpcResult(RpcError(ConfigurationError), None)
        else
          var sub := ResolveSubject(cfg, md, fullMethod, req);
          if sub.Err? then
            RpcResult(RpcError(ConfigurationError), None)
          else
            var d := CheckAuthorization(auth.value, sub.value, policy.resource, policy.action, token, claims, ex);
            RpcResult(RpcOutcomeOf(d), d.sent)
  }

  /**
   * A credential made of any letter-case spelling of "Bearer " followed by
   * a non-empty token with no white space at its ends strips back to that
   * token.
   */
  lemma BearerRoundTrip(scheme: string, token: string)
    requires |scheme| == 7 && Lower(scheme) == "bearer "
    requires token != "" && IsTrimmed(token)
    ensures StripBearer(scheme + token) == token
  {
    var v := scheme + token;
    assert !IsSpace(v[0]) by {
      assert LowerChar(scheme[0]) == 'b';
      assert v[0] == scheme[0];
    }
    assert IsTrimmed(v) by {
      assert v[|v| - 1] == token[|token| - 1];
    }
    assert HasBearerScheme(v) by {
      assert v[..7] == scheme;
    }
    assert v[7..] == token;
  }

  /** A bare scheme is not stripped: "Bearer " trims to "Bearer", which is then taken as the token. */
  lemma BareSchemeIsTheToken()
    ensures StripBearer("Bearer ") == "Bearer"
    ensures ExtractTokenFromMD(Some(map["authorization" := ["Bearer "]])) == ("Bearer", true)
  {
    assert TrimLeft("Bearer ") == "Bearer ";
    assert "Bearer "[..6] == "Bearer";
    assert TrimRight("Bearer ") == TrimRight("Bearer");
    assert IsTrimmed("Bearer");
    assert !HasBearerScheme("Bearer");
  }

  /**
   * The token the interceptor forwards to the PDP has no scheme: with a
   * first "authorization" value "Bearer <token>", extraction yields <token>
   * and any request the interceptor sends carries exactly <token>.
   */
  lemma ExtractTokenDropsScheme(
    auth: Option<AuthClient>, cfg: PolicyConfig, isNilOrEmpty: string -> bool,
    md: Metadata, fullMethod: string, req: Request,
    claims: Option<Claims>, ex: PdpExchange<AuthResponse>,
    scheme: string, token: string)
    requires "authorization" in md && |md["authorization"]| > 0
    requires md["authorization"][0] == scheme + token
    requires |scheme| == 7 && Lower(scheme) == "bearer "
    requires token != "" && IsTrimmed(token)
    ensures ExtractTokenFromMD(Some(md)) == (token, true)
    ensures var r := UnaryPolicyInterceptor(auth, cfg, isNilOrEmpty, Some(md), fullMethod, req, claims, ex);
      r.sent.Some? ==> r.sent.value.authorization == token
  {
    BearerRoundTrip(scheme, token);
  }

  /** Only the first "authorization" value is consulted: calls that agree on it extract the same token. */
  lemma ExtractTokenReadsFirstValueOnly(md1: Metadata, md2: Metadata)
    requires "authorization" in md1 && "authorization" in md2
    requires |md1["authorization"]| > 0 && |md2["authorization"]| > 0
    requires md1["authorization"][0] == md2["authorization"][0]
    ensures ExtractTokenFromMD(Some(md1)) == ExtractTokenFromMD(Some(md2))
  {
  }

  /** A nil method-policy map resolves exactly as an empty one. */
  lemma NilPolicyMapIsEmpty(cfg: PolicyConfig, fullMethod: string)
    ensures PolicyForMethod(cfg.(methodPolicies := None), fullMethod)
         == PolicyForMethod(cfg.(methodPolicies := Some(map[])), fullMethod)
  {
  }

  /**
   * The early rejections (missing token, missing policy, failed subject
   * resolution) never run the handler, send nothing to the PDP and do not depend on the token's
   * claims or on what the PDP would answer.
   */
  lemma EarlyRejectionsSkipPdp(
    auth: AuthClient, cfg: PolicyConfig, isNilOrEmpty: string -> bool,
    md: Option<Metadata>, fullMethod: string, req: Request,
    claims1: Option<Claims>, ex1: PdpExchange<AuthResponse>,
    claims2: Option<Claims>, ex2: PdpExchange<AuthResponse>)
    requires Active(auth) && !ReachesPdp(Some(auth), cfg, isNilOrEmpty, md, fullMethod, req)
    ensures UnaryPolicyInterceptor(Some(auth), cfg, isNilOrEmpty, md, fullMethod, req, claims1, ex1)
         == UnaryPolicyInterceptor(Some(auth), cfg, isNilOrEmpty, md, fullMethod, req, claims2, ex2)
    ensures UnaryPolicyInterceptor(Some(auth), cfg, isNilOrEmpty, md, fullMethod, req, claims1, ex1).outcome.RpcError?
    ensures UnaryPolicyInterceptor(Some(auth), cfg, isNilOrEmpty, md, fullMethod, req, claims1, ex1).sent.None?
  {
  }

  /**
   * The two adapters agree on one answer of checkAuthorization: the HTTP
   * handler passes exactly when the interceptor runs the handler, a 403
   * "Forbidden" is PermissionDenied, a structured PDP rejection with status s
   * is the RPC status the table gives for s, and an HTTP 500 is Internal.
   * The HTTP side answers 500 to every failure whatever its status while the
   * RPC side maps the status, so the last agreement rests on failures
   * carrying status 500, as CheckAuthorization guarantees.
   */
  lemma AdaptersAgree(d: Decision)
    requires d.err.Some? && d.err.value.Failure? ==> d.status == StatusInternalServerError
    ensures HttpOutcomeOf(d).Pass? <==> RpcOutcomeOf(d).CallHandler?
    ensures HttpOutcomeOf(d) == Reject(StatusForbidden, Text("Forbidden")) ==> RpcOutcomeOf(d) == RpcError(Denied)
    ensures HttpOutcomeOf(d).Reject? && HttpOutcomeOf(d).body.Json? ==>
      RpcOutcomeOf(d) == RpcError(GrpcErrorFromHttp(HttpOutcomeOf(d).status))
    ensures HttpOutcomeOf(d) == Reject(StatusInternalServerError, Text("Internal Server Error")) ==>
      RpcOutcomeOf(d) == RpcError(Status(Internal, "internal error"))
  {
  }
}
