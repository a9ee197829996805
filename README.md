# lib-auth authorization pipeline, modelled in Dafny

A model of the policy enforcement point of lib-auth's `auth/middleware`
package. Requests reach a service through one of two adapters: the Fiber
handler returned by `AuthClient.Authorize`, or the unary gRPC interceptor
made by `NewGRPCAuthUnaryPolicy`. Each adapter finds the caller's bearer
token, works out a subject, and asks the Policy Decision Point (PDP) whether
`{sub, resource, action}` is allowed. It then turns the PDP's answer, or the
failure to get one, into "continue" or a transport-specific rejection.
`GetApplicationToken` fetches a client-credentials token from the same PDP.

Everything in the core is a chain of early returns over read-only
configuration, so every operation is a pure function:

- `wrappers.dfy` (`Wrappers`): `Option` and `Result`.
- `text.dfy` (`Text`): Go's `strings.TrimSpace` (with `unicode.IsSpace`) and
  ASCII `strings.ToLower`, on strings of runes.
- `middleware.dfy` (`Middleware`, for `middleware.go`): the subject rule, the
  PDP response classification of `checkAuthorization`, the HTTP adapter and
  `GetApplicationToken`.
- `middleware_grpc.dfy` (`MiddlewareGrpc`, for `middlewareGRPC.go`):
  `stripBearer`, `extractTokenFromMD`, `policyForMethod`,
  `grpcErrorFromHTTP`, `SubFromMetadata` and the interceptor.

Network and library calls become inputs. The PDP round trip is a
`PdpExchange`: the request could not be built, the transport failed, the
body could not be read, or a response arrived with a status, the body
decoded as the `{code, message}` error shape (or not), and the body decoded
as the payload (or not). The unverified JWT parse is an
`Option<map<string, ClaimValue>>`. The emptiness test `commons.IsNilOrEmpty`
is a function parameter; it is required to flag at least the empty string.
`checkAuthorization`, `GetApplicationToken` and both adapters also report
the request they sent, if any. This shows what the PDP is asked: the
adapter's resource and action, the derived subject, and the caller's token
as the `Authorization` header.

Three behaviours of the source are proved as they stand:

- A PDP answer with status 500 and a `{code, message}` body is not treated
  as a rejection. Go's JSON decoder ignores fields a struct does not have,
  so that body also decodes as a verdict with `authorized` false. The HTTP
  caller therefore gets 403 "Forbidden" and not 500
  (`Middleware.ServerErrorBodyIsForbidden`).
- On the RPC path the PDP receives the token without its scheme: with a
  first `authorization` value of `Bearer <token>`, any request the
  interceptor sends carries `<token>` as its `Authorization` header
  (`MiddlewareGrpc.ExtractTokenDropsScheme`). The HTTP path forwards
  whatever `ExtractTokenFromHeader` returned, unchanged
  (`Middleware.Authorize`).
- Normal users and editor roles share one subject namespace: a `sub` claim
  of `orders-editor-role` gives the same subject as the editor role of
  `orders` (`Middleware.SubjectsCanCoincide`).

## Model

| member | source | states |
|---|---|---|
| `Text.TrimSpace` | auth/middleware/middlewareGRPC.go:125-127 | the result has no white space at either end, and a string already trimmed is returned unchanged |
| `Text.TrimSpaceSplit` | auth/middleware/middlewareGRPC.go:125-127 | the input is a run of white space, then the result, then another run of white space, so only white space is removed |
| `Middleware.Subject` | auth/middleware/middleware.go:171-178 | a caller whose `type` claim is not the string "normal-user" (absent, not a string, or another value) gets `lerian/<base>-editor-role`; a normal user gets `lerian/<sub claim>`, or `lerian/` when `sub` is missing or not a string |
| `Middleware.CheckAuthorization` | auth/middleware/middleware.go:145-263 | an unparseable claim set fails first, with nothing sent; a structured rejection happens exactly when the error code is non-empty and the status is not 500, and it carries the PDP's status and error body; every other failure is `authorized=false` with status 500; no error exactly when the body decodes as a non-rejecting error shape and as a verdict, and then the result is the PDP's verdict and status; whatever is sent goes to `<address>/v1/authorize` with the token unchanged as `Authorization` and the derived subject in the body |
| `Middleware.Authorize` | auth/middleware/middleware.go:110-142 | an inactive client passes and sends nothing; an active client whose token is empty, or flagged by the emptiness test, gets 401 "Missing Token" and sends nothing; otherwise a request is sent exactly when the claims parse and the request can be built, and it carries the handler's own resource and action, the subject derived from `sub` and the claims, and the header token unchanged; the handler passes exactly when the PDP authorized without error, answers 403 "Forbidden" exactly on a denial, 500 "Internal Server Error" exactly on a failure, and the PDP's own status and error body as JSON exactly on a structured rejection |
| `Middleware.GetApplicationToken` | auth/middleware/middleware.go:268-353 | an inactive client returns no token, no error and sends nothing; an error always comes with an empty token; a structured rejection (same code/non-500 rule) is returned exactly when the PDP sent one; success happens exactly when the body decodes, and the token is then the PDP's `accessToken`; the request carries the `client_credentials` grant and the credentials unchanged |
| `Middleware.AuthorizeConsultsPdpOnlyWithToken` | auth/middleware/middleware.go:119-127 | when the client is inactive or the token is flagged as empty, nothing is sent and the HTTP outcome is the same whatever the claims and the PDP exchange are, so the PDP is never consulted |
| `Middleware.ServerErrorBodyIsForbidden` | auth/middleware/middleware.go:244-262 | a status-500 response whose body has a non-empty code, and which also decodes as an `authorized=false` verdict, gives no error and HTTP 403 "Forbidden" |
| `Middleware.SubjectsCanCoincide` | auth/middleware/middleware.go:173-178 | a normal user whose `sub` claim is `<base>-editor-role` gets the same subject as the editor role of `<base>` |
| `MiddlewareGrpc.StripBearer` | auth/middleware/middlewareGRPC.go:124-131 | the result never has white space at either end and is no longer than the input; an input whose trimmed form has no case-insensitive "bearer " prefix comes back trimmed and otherwise unchanged |
| `MiddlewareGrpc.StripBearerSplit` | auth/middleware/middlewareGRPC.go:124-131 | the input is a run of white space, then, exactly when the trimmed input has the scheme, seven runes that lower-case to "bearer " and more white space, then the result, then a last run of white space; without the scheme nothing but white space is removed |
| `MiddlewareGrpc.BearerRoundTrip` | auth/middleware/middlewareGRPC.go:124-131 | any letter-case spelling of "Bearer " followed by a non-empty token without surrounding white space strips back to exactly that token |
| `MiddlewareGrpc.BareSchemeIsTheToken` | auth/middleware/middlewareGRPC.go:115-131 | "Bearer " trims to "Bearer", which is returned as is, so metadata holding only "Bearer " yields the token "Bearer" |
| `MiddlewareGrpc.ExtractTokenFromMD` | auth/middleware/middlewareGRPC.go:104-121 | a token is found exactly when there is metadata, "authorization" has a value, and the first value strips to a non-empty string; a found token is that stripped value, non-empty and trimmed; no token means `("", false)` |
| `MiddlewareGrpc.ExtractTokenDropsScheme` | auth/middleware/middlewareGRPC.go:115-131 | a first "authorization" value made of any letter-case spelling of "Bearer " and a non-empty trimmed token yields exactly that token, and any request the interceptor sends to the PDP carries exactly that token as `Authorization` |
| `MiddlewareGrpc.ExtractTokenReadsFirstValueOnly` | auth/middleware/middlewareGRPC.go:110-115 | two metadata maps whose first "authorization" values agree give the same result, whatever their other values |
| `MiddlewareGrpc.PolicyForMethod` | auth/middleware/middlewareGRPC.go:135-147 | the method's own entry wins; without one the default policy is used; the lookup succeeds exactly when one of them exists, and otherwise returns the zero `Policy` |
| `MiddlewareGrpc.NilPolicyMapIsEmpty` | auth/middleware/middlewareGRPC.go:136-146 | a nil method-policy map resolves exactly like an empty one |
| `MiddlewareGrpc.GrpcErrorFromHttp` | auth/middleware/middlewareGRPC.go:150-159 | total: Unauthenticated "unauthenticated" exactly for 401, PermissionDenied "forbidden" exactly for 403, Internal "internal error" exactly for every other status |
| `MiddlewareGrpc.SubFromMetadata` | auth/middleware/middlewareGRPC.go:163-178 | the resolver never returns an error; it answers the first value under the trimmed, lower-cased key, or "" when the call has no metadata or the key has no value |
| `MiddlewareGrpc.UnaryPolicyInterceptor` | auth/middleware/middlewareGRPC.go:43-100 | a nil, disabled or unaddressed client calls the handler and sends nothing; a request is sent exactly when the token, the policy and the subject are all found, the claims parse and the request can be built, and it goes to `<address>/v1/authorize` with the stripped token, the method policy's resource and action, and the subject derived from the resolver's answer (from "" when no resolver is configured); then, in order, a missing token gives Unauthenticated "missing token", a missing policy gives Internal "internal configuration error", and a resolver error gives the same; once the PDP is asked, its errors go through the status table, a denial gives PermissionDenied "forbidden", and the handler runs exactly when the PDP authorized; every RPC error message is one of five fixed strings |
| `MiddlewareGrpc.EarlyRejectionsSkipPdp` | auth/middleware/middlewareGRPC.go:58-77 | an active interceptor that stops before the PDP call always fails the call, sends nothing, and its outcome does not depend on the claims or the PDP exchange |
| `MiddlewareGrpc.AdaptersAgree` | auth/middleware/middlewareGRPC.go:89-98 | for one answer of checkAuthorization whose failures carry status 500, the HTTP handler passes exactly when the interceptor runs the handler; 403 "Forbidden" is PermissionDenied "forbidden"; a structured rejection with status s is the table's status for s; HTTP 500 "Internal Server Error" is Internal "internal error" |

## Left out

- The `NewAuthClient` health probe (middleware.go:51-105): it only logs, and the model takes the client's address and enabled flag as given.
- HTTP transport, `http.NewRequest`, `client.Do`, `io.ReadAll` and JSON encoding and decoding: they are replaced by the `PdpExchange` input. Serialising the span attributes and the request body, and building the request, are folded into its `BuildError` case.
- The JWT parser: `ParseUnverified` and the `MapClaims` type assertion are one input, the claims or `None`.
- `libHTTP.ExtractTokenFromHeader` and `commons.IsNilOrEmpty`: their source is not part of this model. The header's token is an input string and the emptiness test a function parameter; `Middleware.Authorize` requires only that it flags the empty string, as its name promises, and says nothing about what else it flags.
- `Text.Lower`: Unicode lower-casing is not modelled; only ASCII letters are lowered, which is what `SubFromMetadata`'s key normalisation is modelled with.
- `MiddlewareGrpc.MdGet`: gRPC's own lower-casing of the lookup key is not modelled, because both callers pass lower-case keys. The model also takes the incoming `Metadata` keys as already lower-cased, as `metadata.FromIncomingContext` delivers them; the `Metadata` type does not enforce it, so a map built with an upper-case key such as "Authorization" is not a case the model describes.
- `Text.TrimSpace`: strings are sequences of runes; invalid UTF-8 in a header is not modelled.
- Strings and byte lengths: `stripBearer` slices 7 bytes; the model tests the first 7 runes. The two agree because a prefix that matches "bearer " ignoring case must be ASCII.
- OpenTelemetry spans, request IDs and logging, including the possible nil `Logger` dereference after a failed health probe: none of them affect a decision.
- The Fiber and gRPC frameworks: `c.Next()` and `handler(ctx, req)` are the outcomes `Pass` and `CallHandler`. The context is reduced to its incoming metadata, and the request message (`req any`) to its serialised bytes, which only a subject resolver may inspect.
- `AuthResponse.Timestamp` and the `oauth2Token` fields besides `accessToken` (token type, expiry, refresh token): they are decoded but never used in a decision, so `AuthResponse` and `OAuth2Token` carry only `authorized` and `accessToken`.
- `Middleware.Authorize`: on a structured rejection the source answers with the whole decoded `commons.Response` as JSON (entity type, title, message, code and wrapped error); the model's `Json` body keeps only `code` and `message`, the two fields the decision reads.
- Concurrency: there is none. The client and the configuration are read-only after construction.
