/**
 * The gateway's authentication filter: a guard chain over the request
 * path, the `Authorization` header and the bearer token. The first three
 * checks reject with their own message; everything that goes wrong while
 * the token is verified, or its user code extracted, is caught and answered
 * with one generic message.
 *
 * The scheme check is stricter than the grammar of section 2.1 of RFC 6750,
 * which matches "Bearer" case-insensitively and allows one or more spaces:
 * here the prefix must be exactly "Bearer " and nothing after it is trimmed.
 */
module AuthenticationFilter {
  import opened Wrappers
  import opened Strings
  import opened Http
  import opened RouteFilter

  const Unauthorized := 401

  const AuthorizationHeader := "Authorization"
  const UserCodeHeader := "X-User-Code"
  const BearerPrefix := "Bearer "

  const MissingHeaderMessage := "Missing Authorization Header"
  const InvalidFormatMessage := "Invalid Authorization header format"
  const EmptyTokenMessage := "Empty token provided"
  /** Thrown inside the try block when the token is judged invalid; never reaches the client. */
  const InvalidTokenMessage := "Invalid or expired token"
  const GenericMessage := "Unauthorized access to application"

  /** The messages a rejection can carry. */
  const RejectionMessages := {MissingHeaderMessage, InvalidFormatMessage, EmptyTokenMessage, GenericMessage}

  /** What a call into the token library does: return a value or throw an exception with some message. */
  datatype Call<T> = Returns(value: T) | Throws(reason: string)

  /**
   * The JWT utility as an oracle: what `validateToken` and `extractUserCode`
   * do for each token string. Signature, expiry and claim parsing live behind it.
   */
  datatype Verifier = Verifier(validateToken: string -> Call<bool>, extractUserCode: string -> Call<string>)

  /** An exception raised inside the try block. */
  datatype Thrown = StatusFailure(status: int, reason: string) | LibraryFailure(reason: string)

  /** What the filter does with a request: pass a (possibly new) request down the chain, or answer with an error. */
  datatype Outcome = Forward(request: Request) | Reject(status: int, message: string)

  /** The verifier accepts the token: it validates and its user code can be extracted. */
  predicate Accepts(jwt: Verifier, token: string) {
    jwt.validateToken(token) == Returns(true) && jwt.extractUserCode(token).Returns?
  }

  /** The try block: validate, extract the user code, build the copy of the request carrying it. */
  function TryVerify(request: Request, token: string, jwt: Verifier): (attempt: Result<Request, Thrown>)
    ensures attempt.Success? <==> Accepts(jwt, token)
    ensures attempt.Success? ==>
      attempt.value == WithHeader(request, UserCodeHeader, jwt.extractUserCode(token).value)
  {
    match jwt.validateToken(token)
    case Throws(reason) => Failure(LibraryFailure(reason))
    case Returns(false) => Failure(StatusFailure(Unauthorized, InvalidTokenMessage))
    case Returns(true) =>
      match jwt.extractUserCode(token)
      case Throws(reason) => Failure(LibraryFailure(reason))
      case Returns(userCode) => Success(WithHeader(request, UserCodeHeader, userCode))
  }

  /**
   * The filter lambda, for one request and one verifier. The last match is
   * the catch clause: any exception from the try block becomes the generic 401.
   */
  function Authenticate(request: Request, jwt: Verifier): (outcome: Outcome)
    ensures outcome.Reject? ==> outcome.status == Unauthorized && outcome.message in RejectionMessages
    ensures outcome.Forward? ==>
      outcome.request.verb == request.verb && outcome.request.path == request.path
  {
    if !IsSecured(request) then
      Forward(request)
    else
      match GetFirst(request.headers, AuthorizationHeader)
      case None => Reject(Unauthorized, MissingHeaderMessage)
      case Some(authHeader) =>
        if authHeader == "" then Reject(Unauthorized, MissingHeaderMessage)
        else if !StartsWith(authHeader, BearerPrefix) then Reject(Unauthorized, InvalidFormatMessage)
        else
          var token := authHeader[7..];
          if token == "" then Reject(Unauthorized, EmptyTokenMessage)
          else
            match TryVerify(request, token, jwt)
            case Success(forwarded) => Forward(forwarded)
            case Failure(_) => Reject(Unauthorized, GenericMessage)
  }

  /** The header carries the bearer scheme followed by the non-empty `token`. */
  predicate HasBearerToken(request: Request, token: string) {
    GetFirst(request.headers, AuthorizationHeader) == Some(BearerPrefix + token) && token != ""
  }

  /** Stripping the seven-character prefix gives back exactly the token, untrimmed. */
  lemma StripBearerPrefix(token: string)
    ensures StartsWith(BearerPrefix + token, BearerPrefix)
    ensures (BearerPrefix + token)[7..] == token
  {
    assert (BearerPrefix + token)[..7] == BearerPrefix;
  }

  /** A public request goes through unchanged, whatever its headers and whatever the verifier would say. */
  lemma PublicRequestForwardedUnchanged(request: Request, jwt: Verifier)
    requires !IsSecured(request)
    ensures Authenticate(request, jwt) == Forward(request)
  {
  }

  /** The missing-header message is given exactly to secured requests with no or an empty `Authorization` value. */
  lemma MissingHeaderIff(request: Request, jwt: Verifier)
    ensures Authenticate(request, jwt) == Reject(Unauthorized, MissingHeaderMessage) <==>
      IsSecured(request) && GetFirst(request.headers, AuthorizationHeader) in {None, Some("")}
  {
  }

  /** The format message is given exactly when a non-empty header lacks the case-sensitive "Bearer " prefix. */
  lemma InvalidFormatIff(request: Request, jwt: Verifier)
    ensures Authenticate(request, jwt) == Reject(Unauthorized, InvalidFormatMessage) <==>
      IsSecured(request) &&
      exists h :: GetFirst(request.headers, AuthorizationHeader) == Some(h) && h != "" && !StartsWith(h, BearerPrefix)
  {
  }

  /** The empty-token message is given exactly when the header is "Bearer " and nothing more. */
  lemma EmptyTokenIff(request: Request, jwt: Verifier)
    ensures Authenticate(request, jwt) == Reject(Unauthorized, EmptyTokenMessage) <==>
      IsSecured(request) && GetFirst(request.headers, AuthorizationHeader) == Some(BearerPrefix)
  {
    match GetFirst(request.headers, AuthorizationHeader)
    case None =>
    case Some(h) =>
      if StartsWith(h, BearerPrefix) && h[7..] == "" {
        assert h == h[..7] + h[7..];
        assert h == BearerPrefix;
      }
  }

  /** A header that passes the format check is "Bearer " followed by its tail. */
  lemma BearerTokenOfHeader(h: string)
    requires StartsWith(h, BearerPrefix)
    ensures h == BearerPrefix + h[7..]
  {
  }

  /**
   * The generic message is given exactly when a secured request carries a
   * bearer token that the verifier does not accept, whichever way it fails:
   * validation throws, validation answers false, or extraction throws.
   */
  lemma VerificationFailuresCollapse(request: Request, jwt: Verifier)
    ensures Authenticate(request, jwt) == Reject(Unauthorized, GenericMessage) <==>
      IsSecured(request) && exists token :: HasBearerToken(request, token) && !Accepts(jwt, token)
  {
    if IsSecured(request) {
      match GetFirst(request.headers, AuthorizationHeader)
      case None =>
      case Some(h) =>
        if h != "" && StartsWith(h, BearerPrefix) {
          BearerTokenOfHeader(h);
          var token := h[7..];
          forall other | HasBearerToken(request, other) ensures other == token {
            StripBearerPrefix(other);
          }
        } else {
          forall other | HasBearerToken(request, other) ensures StartsWith(h, BearerPrefix) {
            StripBearerPrefix(other);
          }
        }
    }
  }

  /**
   * A secured request is forwarded exactly when it carries a bearer token
   * the verifier accepts, and it is then forwarded as a copy whose
   * `X-User-Code` is the extracted user code.
   */
  lemma AcceptedTokenForwardsUserCode(request: Request, jwt: Verifier, token: string)
    requires IsSecured(request) && HasBearerToken(request, token) && Accepts(jwt, token)
    ensures Authenticate(request, jwt) ==
      Forward(WithHeader(request, UserCodeHeader, jwt.extractUserCode(token).value))
  {
    StripBearerPrefix(token);
  }

  /** A secured request is never forwarded without a bearer token the verifier accepts. */
  lemma SecuredForwardNeedsAcceptedToken(request: Request, jwt: Verifier)
    requires IsSecured(request) && Authenticate(request, jwt).Forward?
    ensures exists token :: HasBearerToken(request, token) && Accepts(jwt, token)
  {
    var h := GetFirst(request.headers, AuthorizationHeader).value;
    BearerTokenOfHeader(h);
    assert HasBearerToken(request, h[7..]);
  }

  /**
   * The forwarded copy carries exactly the user code under `X-User-Code`,
   * read under any spelling of that name, replacing every value the client
   * sent there, and every other header with all the values the client sent.
   */
  lemma ForwardedHeaders(request: Request, jwt: Verifier, token: string, name: string)
    requires IsSecured(request) && HasBearerToken(request, token) && Accepts(jwt, token)
    ensures Authenticate(request, jwt).Forward?
    ensures Authenticate(request, jwt).request.headers.Keys == request.headers.Keys + {Lower(UserCodeHeader)}
    ensures Authenticate(request, jwt).request.headers[Lower(UserCodeHeader)] == [jwt.extractUserCode(token).value]
    ensures forall k :: k in request.headers && k != Lower(UserCodeHeader) ==>
      Authenticate(request, jwt).request.headers[k] == request.headers[k]
    ensures GetFirst(Authenticate(request, jwt).request.headers, name) ==
      if Lower(name) == Lower(UserCodeHeader) then Some(jwt.extractUserCode(token).value)
      else GetFirst(request.headers, name)
  {
    AcceptedTokenForwardsUserCode(request, jwt, token);
    GetFirstWithHeader(request, UserCodeHeader, jwt.extractUserCode(token).value, name);
    WithHeaderFrame(request, UserCodeHeader, jwt.extractUserCode(token).value);
  }

  /** The verifier is consulted only on the header minus its first seven characters. */
  lemma VerifierSeesOnlyToken(request: Request, jwt1: Verifier, jwt2: Verifier, token: string)
    requires HasBearerToken(request, token)
    requires jwt1.validateToken(token) == jwt2.validateToken(token)
    requires jwt1.extractUserCode(token) == jwt2.extractUserCode(token)
    ensures Authenticate(request, jwt1) == Authenticate(request, jwt2)
  {
    StripBearerPrefix(token);
  }

  /** No trimming: the header "Bearer  x" hands the token " x", leading space kept, to the verifier. */
  lemma TokenIsNotTrimmed(request: Request, jwt: Verifier)
    requires IsSecured(request)
    requires GetFirst(request.headers, AuthorizationHeader) == Some("Bearer  x")
    requires Accepts(jwt, " x")
    ensures Authenticate(request, jwt) ==
      Forward(WithHeader(request, UserCodeHeader, jwt.extractUserCode(" x").value))
  {
    assert "Bearer  x" == BearerPrefix + " x";
    AcceptedTokenForwardsUserCode(request, jwt, " x");
  }

  /** The prefix check is case-sensitive: "bearer abc" is rejected for its format. */
  lemma LowerCaseSchemeRejected(request: Request, jwt: Verifier)
    requires IsSecured(request)
    requires GetFirst(request.headers, AuthorizationHeader) == Some("bearer abc")
    ensures Authenticate(request, jwt) == Reject(Unauthorized, InvalidFormatMessage)
  {
    assert "bearer abc"[0] != BearerPrefix[0];
  }
}
