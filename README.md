# Central API gateway: request-decision logic in Dafny

This project models the decision logic of a Spring Cloud Gateway that sits
in front of a set of backend services:

- **Route classifier** (`RouteFilter`). A request is *secured* when its path
  contains none of four public fragments (`/api/user`, `/api/auth/login`,
  `/api/auth/refresh`, `api/users/search`). Matching is literal,
  case-sensitive substring containment anywhere in the path.
- **Authentication filter** (`AuthenticationFilter`). On a secured path it runs
  a guard chain over the `Authorization` header. The header must be present and
  non-empty. It must start with the exact, case-sensitive `"Bearer "` prefix.
  That is stricter than the grammar of section 2.1 of RFC 6750, which matches
  "Bearer" case-insensitively and allows one or more spaces before the token:
  "bearer abc" is rejected, and "Bearer  x" hands the token " x" on untrimmed. What follows the prefix must be non-empty. The token must then
  validate, and its `userCode` claim must be extractable. A request that passes
  is forwarded as a copy carrying `X-User-Code`. Every rejection is a 401. The
  first three checks have their own messages. Everything inside the `try`
  block collapses to "Unauthorized access to application".
- **Fallback responder** (`FallbackController`). It builds a 503 response
  whose body has exactly four keys: `timestamp`, `status`, `failedService`
  and `message`. The service named is the matched route's id, or
  "Unknown Service".

All three are pure, so the model is built from datatypes, functions and lemmas.
The JWT utility is an oracle: a `Verifier` value says, for each token string,
whether `validateToken` returns or throws and what `extractUserCode` returns
or throws. The clock reading is a parameter of `GlobalFallback`.

Files: `wrappers.dfy` (Option, Result), `strings.dfy` (Java's `startsWith`
and `contains`), `http.dfy` (requests and case-insensitive headers),
`route_filter.dfy`, `authentication_filter.dfy` and `fallback_controller.dfy`.

Three behaviours of the code worth stating outright:

- A failed verification is answered with "Unauthorized access to application".
  The "Invalid or expired token" exception thrown at AuthenticationFilter.java:64
  sits inside the `try` block, so the `catch (Exception e)` at line 66 catches it
  and replaces it. `VerificationFailuresCollapse` states this, and `Authenticate`'s
  contract proves that "Invalid or expired token" never reaches the client.
- A client-sent `X-User-Code` does not survive authentication. The code sets the
  header with `mutate().header(name, value)`, which sets or overrides the header
  under a case-insensitive name. `ForwardedHeaders` proves that the forwarded copy
  holds exactly `[userCode]` under that name and every other header unchanged.
- A token without a `userCode` claim is not rejected: `get("userCode", String.class)`
  yields null and the request goes on. See "Left out".

## Model

| member | source | states |
|---|---|---|
| `Strings.Contains` | src/main/java/com/central/api_gateway/filter/RouteFilter.java:22 | `path.contains(f)` holds exactly when the path splits as `before + f + after` (the reference definition `IsSubstring`) |
| `RouteFilter.IsSecured` | src/main/java/com/central/api_gateway/filter/RouteFilter.java:12-22 | `isSecured` holds exactly when none of the four declared fragments `/api/user`, `/api/auth/login`, `/api/auth/refresh`, `api/users/search` is a substring of the path |
| `RouteFilter.NoneContained` | src/main/java/com/central/api_gateway/filter/RouteFilter.java:19-22 | `noneMatch` over the fragment list is true iff no fragment of the list is a substring of the path |
| `RouteFilter.PublicIffFragmentOccurs` | src/main/java/com/central/api_gateway/filter/RouteFilter.java:12-22 | a request is public iff one of the four declared fragments occurs in its path |
| `RouteFilter.SecuredDependsOnlyOnPath` | src/main/java/com/central/api_gateway/filter/RouteFilter.java:22 | two requests with the same path are classified alike, whatever their method and headers |
| `RouteFilter.PublicIsMonotone` | src/main/java/com/central/api_gateway/filter/RouteFilter.java:22 | if path `p` is public then `a + p + b` is public for all strings `a`, `b` |
| `RouteFilter.UserFragmentMakesPublic` | src/main/java/com/central/api_gateway/filter/RouteFilter.java:13-22 | any path containing `/api/user` anywhere is public |
| `RouteFilter.NestedUserPathIsPublic` | src/main/java/com/central/api_gateway/filter/RouteFilter.java:12-22 | `/x/api/users/42` is public: the fragment may sit anywhere in the path |
| `RouteFilter.UserAdminPathIsPublic` | src/main/java/com/central/api_gateway/filter/RouteFilter.java:12-22 | `/api/user-admin` is public: the fragment need not end at a path segment |
| `RouteFilter.UpperCasePathIsSecured` | src/main/java/com/central/api_gateway/filter/RouteFilter.java:22 | matching is case-sensitive with no normalisation: `/API/USER` is secured |
| `RouteFilter.EmptyPathIsSecured` | src/main/java/com/central/api_gateway/filter/RouteFilter.java:12-22 | the empty path contains no fragment and is secured |
| `RouteFilter.SecuredIndependentOfOrder` | src/main/java/com/central/api_gateway/filter/RouteFilter.java:20-22 | two fragment lists with the same members (any order, any repetition) classify every path alike |
| `Strings.StartsWith` | src/main/java/com/central/api_gateway/filter/AuthenticationFilter.java:42 | `authHeader.startsWith("Bearer ")` holds exactly when the header is the prefix followed by some rest |
| `Http.GetFirst` | src/main/java/com/central/api_gateway/filter/AuthenticationFilter.java:33 | `getFirst(AUTHORIZATION)` yields the first value stored under a name equal to `Authorization` up to case, and null when there is none or it has no value |
| `Http.WithHeader` | src/main/java/com/central/api_gateway/filter/AuthenticationFilter.java:59-61 | the copy built by `mutate().header(...).build()` keeps the method and path of the original |
| `Http.WithHeaderFrame` | src/main/java/com/central/api_gateway/filter/AuthenticationFilter.java:59-61 | the copy's header map: the set name holds exactly `[value]`, every other header keeps its full list of values, and the key set grows by that name only |
| `Http.GetFirstWithHeader` | src/main/java/com/central/api_gateway/filter/AuthenticationFilter.java:59-61 | on the copy, the header just set reads back as the new value under any spelling of its name; every other header reads as in the original |
| `AuthenticationFilter.TryVerify` | src/main/java/com/central/api_gateway/filter/AuthenticationFilter.java:53-65 | the `try` block completes iff the verifier validates the token and the user code can be extracted; it then yields the copy of the request carrying that user code |
| `AuthenticationFilter.Authenticate` | src/main/java/com/central/api_gateway/filter/AuthenticationFilter.java:30-72 | every rejection is 401 with one of the four fixed messages (never the verifier's own text, never "Invalid or expired token"); a forwarded request keeps the method and path |
| `AuthenticationFilter.StripBearerPrefix` | src/main/java/com/central/api_gateway/filter/AuthenticationFilter.java:42-48 | `"Bearer " + t` passes the prefix check, and removing 7 characters gives back exactly `t` |
| `AuthenticationFilter.PublicRequestForwardedUnchanged` | src/main/java/com/central/api_gateway/filter/AuthenticationFilter.java:31-71 | a public request is forwarded unchanged for every header set and every verifier |
| `AuthenticationFilter.MissingHeaderIff` | src/main/java/com/central/api_gateway/filter/AuthenticationFilter.java:33-39 | the result is 401 "Missing Authorization Header" iff the path is secured and the first `Authorization` value is absent or empty |
| `AuthenticationFilter.InvalidFormatIff` | src/main/java/com/central/api_gateway/filter/AuthenticationFilter.java:42-45 | the result is 401 "Invalid Authorization header format" iff the path is secured and the header is non-empty and does not start with the case-sensitive "Bearer " |
| `AuthenticationFilter.EmptyTokenIff` | src/main/java/com/central/api_gateway/filter/AuthenticationFilter.java:47-52 | the result is 401 "Empty token provided" iff the path is secured and the header is exactly "Bearer " |
| `AuthenticationFilter.VerificationFailuresCollapse` | src/main/java/com/central/api_gateway/filter/AuthenticationFilter.java:53-69 | the result is 401 "Unauthorized access to application" iff the path is secured and carries a bearer token that the verifier does not accept (validation throws, validation returns false, or extraction throws) |
| `AuthenticationFilter.AcceptedTokenForwardsUserCode` | src/main/java/com/central/api_gateway/filter/AuthenticationFilter.java:54-61 | a secured request with an accepted bearer token is forwarded as the copy whose `X-User-Code` is the extracted user code |
| `AuthenticationFilter.SecuredForwardNeedsAcceptedToken` | src/main/java/com/central/api_gateway/filter/AuthenticationFilter.java:36-69 | a secured request is forwarded only if it carries a bearer token the verifier accepts |
| `AuthenticationFilter.ForwardedHeaders` | src/main/java/com/central/api_gateway/filter/AuthenticationFilter.java:59-61 | the forwarded copy holds exactly `[userCode]` under `X-User-Code` (read under any spelling), so no client-sent value survives; every other header keeps its full list of values; no other header is added or removed |
| `AuthenticationFilter.VerifierSeesOnlyToken` | src/main/java/com/central/api_gateway/filter/AuthenticationFilter.java:48-57 | the outcome depends on the verifier only through its answers for the header minus its first 7 characters |
| `AuthenticationFilter.TokenIsNotTrimmed` | src/main/java/com/central/api_gateway/filter/AuthenticationFilter.java:48 | the header "Bearer  x" hands the untrimmed token " x" to the verifier |
| `AuthenticationFilter.LowerCaseSchemeRejected` | src/main/java/com/central/api_gateway/filter/AuthenticationFilter.java:42-45 | "bearer abc" fails the case-sensitive prefix check and is rejected for its format |
| `FallbackController.UnavailableMessage` | src/main/java/com/central/api_gateway/controller/FallbackController.java:37 | the message is "The ", then exactly the service name, then exactly the fixed tail " is currently unavailable. Please try again later." |
| `FallbackController.GlobalFallback` | src/main/java/com/central/api_gateway/controller/FallbackController.java:18-40 | for every input the status is 503 and the body has exactly the four keys; `timestamp` is the clock reading; `status` is "SERVICE_UNAVAILABLE"; `failedService` is the route id, or "Unknown Service" with no route; `message` is the template around `failedService` |
| `FallbackController.MessageNamesOneService` | src/main/java/com/central/api_gateway/controller/FallbackController.java:37 | the message template is injective: equal messages name the same service |
| `FallbackController.FallbackAttributesFailure` | src/main/java/com/central/api_gateway/controller/FallbackController.java:29-37 | two fallback bodies have the same message iff they have the same `failedService` |
| `FallbackController.DistinctRoutesDistinctMessages` | src/main/java/com/central/api_gateway/controller/FallbackController.java:27-37 | routes with different ids never get the same message |
| `FallbackController.OnlyTimestampDependsOnClock` | src/main/java/com/central/api_gateway/controller/FallbackController.java:22 | the clock reading changes the `timestamp` entry and nothing else |
| `FallbackController.FallbackExamples` | src/main/java/com/central/api_gateway/controller/FallbackController.java:21-39 | the full response for route "wallet-service" and for no route |

## Left out

- JwtUtil.java is not part of this model. JWS parsing, HMAC signature checks, `exp` handling, base64 key decoding and the `role` claim all happen inside the jjwt library. The `Verifier` oracle stands in for `validateToken` and `extractUserCode`. It is a function, so verifying the same token twice gives the same answer.
- `InvalidJWTTokenException` appears only as a thrown failure (`LibraryFailure`) inside the `try` block. Its 401 status never matters, because the `catch` replaces it.
- A null `userCode`: the claim may be absent, and the code then passes null to the header builder. What Spring does with that is defined by the library, so the oracle always yields a string.
- Spring and Reactor wiring is left out: `GatewayFilter`, `chain.filter`, `Mono`, exchange attributes, `getOrder()` returning -1, `@RequestMapping`, and the logging calls. An exception thrown while `chain.filter` assembles the call inside the `try` block would also become the generic 401; the model does not capture that.
- Percent-decoding of the path (`getURI().getPath()`) happens before the classifier and is outside the model: `Request.path` is the decoded path.
- Header names are compared after ASCII lower-casing, as the reactive Netty header adapter does. `HttpHeaders` itself folds names with `Locale.ENGLISH`, which differs from ASCII folding only for non-ASCII names.
- `timestamp` is an unbounded `int`, where the code uses `System.currentTimeMillis()` as a Java `long`. The reading is passed in as a parameter.
- FallbackExamples: states the message as `UnavailableMessage(...)` of the literal service name rather than as the spelled-out sentence, because the solver does not compare long concatenated string literals.
- Concurrency: the code has none. Requests share only the immutable fragment list and key.
