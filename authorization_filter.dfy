/**
 * The per-request gatekeeper. It takes the access token from the
 * `Authorization` header, or mints one from a valid refresh cookie when the
 * header carries no text; rejects a presented token that is blacklisted;
 * validates the token; and either installs the authentication and forwards
 * the request or answers 401 and stops. An exception thrown by a provider
 * call leaves the gatekeeper uncaught.
 *
 * The gatekeeper is written against the token-provider operations it calls,
 * given here as an interface value, because the provider it was built
 * against has different signatures from the one modelled in module Jwt.
 */
module Auth {
  import opened Wrappers
  import opened Servlet
  import opened Stores
  import opened Jwt

  /**
   * The provider operations the gatekeeper calls: does a refresh token
   * validate, mint an access token from a refresh token, validate an access
   * token (giving the token to use, possibly a rotated one, or nothing), and
   * build the authentication a validated token stands for. Each of them may
   * throw instead of returning.
   */
  datatype FilterProvider = FilterProvider(
    validateRefreshToken: string -> Completion<bool>,
    createNewAccessToken: string -> Completion<string>,
    validateAccessToken: (string, Request) -> Completion<Option<string>>,
    getAuthentication: string -> Completion<Authentication>)

  /** Why a request was turned away; all of them look the same to the caller (401). */
  datatype Rejection = NoCredentials | RefreshTokenInvalid | Blacklisted | ValidationFailed

  /** Turned away, admitted with an authentication, or ended by an exception from a provider call. */
  datatype Decision =
    | Reject(reason: Rejection)
    | Admit(token: string, authentication: Authentication)
    | Propagated(exception: JavaException)

  /** Java's `Character.isWhitespace`: the ASCII controls it names and the Unicode space, line and paragraph separators other than the no-break spaces. */
  predicate IsWhitespace(c: char)
  {
    || c == ' ' || c == '\t' || c == '\n' || c == '\r'
    || c == '\U{000B}' || c == '\U{000C}'
    || ('\U{001C}' <= c <= '\U{001F}')
    || c == '\U{1680}'
    || ('\U{2000}' <= c <= '\U{2006}') || ('\U{2008}' <= c <= '\U{200A}')
    || c == '\U{2028}' || c == '\U{2029}' || c == '\U{205F}' || c == '\U{3000}'
  }

  /** Scans `s` from the front for a character that is not whitespace. */
  function ContainsText(s: string): (found: bool)
    ensures found <==> exists i :: 0 <= i < |s| && !IsWhitespace(s[i])
  {
    if |s| == 0 then false
    else if !IsWhitespace(s[0]) then true
    else
      assert forall i :: 1 <= i < |s| ==> s[i] == s[1..][i - 1];
      ContainsText(s[1..])
  }

  /** `StringUtils.hasText`: not null, not empty, and holding a character that is not whitespace. */
  function HasText(s: Option<string>): (has: bool)
    ensures has <==> s.Some? && exists i :: 0 <= i < |s.value| && !IsWhitespace(s.value[i])
    ensures has ==> |s.value| > 0
  {
    s.Some? && |s.value| > 0 && ContainsText(s.value)
  }

  /**
   * The outcome of validating `accessToken`: the token validation gives
   * back with its authentication, a rejection when validation gives null,
   * or the exception of whichever of the two calls threw.
   */
  function Validated(provider: FilterProvider, accessToken: string, request: Request): (d: Decision)
    ensures d.Reject? <==> provider.validateAccessToken(accessToken, request) == Returned(None)
    ensures d.Admit? ==>
      provider.validateAccessToken(accessToken, request) == Returned(Some(d.token)) &&
      provider.getAuthentication(d.token) == Returned(d.authentication)
    ensures d.Propagated? <==>
      provider.validateAccessToken(accessToken, request).Threw? ||
      (provider.validateAccessToken(accessToken, request).Returned? &&
       provider.validateAccessToken(accessToken, request).value.Some? &&
       provider.getAuthentication(provider.validateAccessToken(accessToken, request).value.value).Threw?)
    ensures d.Propagated? ==>
      d.exception ==
        if provider.validateAccessToken(accessToken, request).Threw? then
          provider.validateAccessToken(accessToken, request).exception
        else
          provider.getAuthentication(provider.validateAccessToken(accessToken, request).value.value).exception
  {
    match provider.validateAccessToken(accessToken, request)
    case Threw(e) => Propagated(e)
    case Returned(None) => Reject(ValidationFailed)
    case Returned(Some(validated)) =>
      match provider.getAuthentication(validated)
      case Threw(e) => Propagated(e)
      case Returned(authentication) => Admit(validated, authentication)
  }

  /**
   * The outcome once the refresh cookie has validated: mint a token and
   * validate it. An exception from minting ends the request with that
   * exception; it is never turned into a rejection.
   */
  function Minted(provider: FilterProvider, refreshToken: string, request: Request): (d: Decision)
    ensures provider.createNewAccessToken(refreshToken).Threw? ==>
      d == Propagated(provider.createNewAccessToken(refreshToken).exception)
    ensures provider.createNewAccessToken(refreshToken).Returned? ==>
      d == Validated(provider, provider.createNewAccessToken(refreshToken).value, request)
    ensures d != Reject(NoCredentials) && d != Reject(RefreshTokenInvalid) && d != Reject(Blacklisted)
  {
    match provider.createNewAccessToken(refreshToken)
    case Threw(e) => Propagated(e)
    case Returned(accessToken) => Validated(provider, accessToken, request)
  }

  /**
   * What the gatekeeper decides for a request, given the blacklist. The
   * three rejections made before any token is validated are characterised
   * exactly (no credentials, a refresh cookie that does not validate, a
   * blacklisted presented token); a presented token that is not blacklisted
   * is decided by its validation alone; a cookie that validates is decided
   * by minting; and an exception from checking the cookie propagates.
   */
  function Decide(provider: FilterProvider, blacklist: set<string>, request: Request): (d: Decision)
    ensures d == Reject(NoCredentials) <==>
      !HasText(ResolveToken(request.authorization)) && RefreshCookie(request.cookies).None?
    ensures d == Reject(Blacklisted) <==>
      HasText(ResolveToken(request.authorization)) && ResolveToken(request.authorization).value in blacklist
    ensures d == Reject(RefreshTokenInvalid) <==>
      && !HasText(ResolveToken(request.authorization))
      && RefreshCookie(request.cookies).Some?
      && provider.validateRefreshToken(RefreshCookie(request.cookies).value) == Returned(false)
    ensures HasText(ResolveToken(request.authorization)) && ResolveToken(request.authorization).value !in blacklist ==>
      d == Validated(provider, ResolveToken(request.authorization).value, request)
    ensures !HasText(ResolveToken(request.authorization)) && RefreshCookie(request.cookies).Some? ==>
      match provider.validateRefreshToken(RefreshCookie(request.cookies).value)
      case Threw(e) => d == Propagated(e)
      case Returned(valid) => valid ==> d == Minted(provider, RefreshCookie(request.cookies).value, request)
  {
    var accessToken := ResolveToken(request.authorization);
    if !HasText(accessToken) then
      match RefreshCookie(request.cookies)
      case None => Reject(NoCredentials)
      case Some(refreshToken) =>
        match provider.validateRefreshToken(refreshToken)
        case Threw(e) => Propagated(e)
        case Returned(valid) =>
          if valid then Minted(provider, refreshToken, request) else Reject(RefreshTokenInvalid)
    else if accessToken.value in blacklist then Reject(Blacklisted)
    else Validated(provider, accessToken.value, request)
  }

  /** No access token with text and no refresh cookie: rejected, whatever the provider and the blacklist. */
  lemma NoCredentialsRejected(provider: FilterProvider, blacklist: set<string>, request: Request)
    requires !HasText(ResolveToken(request.authorization)) && RefreshCookie(request.cookies).None?
    ensures Decide(provider, blacklist, request) == Reject(NoCredentials)
  {
  }

  /** No access token with text and a refresh cookie that fails validation: rejected. */
  lemma InvalidRefreshRejected(provider: FilterProvider, blacklist: set<string>, request: Request)
    requires !HasText(ResolveToken(request.authorization))
    requires RefreshCookie(request.cookies).Some?
    requires provider.validateRefreshToken(RefreshCookie(request.cookies).value) == Returned(false)
    ensures Decide(provider, blacklist, request) == Reject(RefreshTokenInvalid)
  {
  }

  /**
   * On the refresh-cookie path an exception from validating the cookie or
   * from minting the access token ends the request with that exception; it
   * is never answered with a 401.
   */
  lemma RefreshPathExceptionsPropagate(provider: FilterProvider, blacklist: set<string>, request: Request, e: JavaException)
    requires !HasText(ResolveToken(request.authorization))
    requires RefreshCookie(request.cookies).Some?
    ensures provider.validateRefreshToken(RefreshCookie(request.cookies).value) == Threw(e) ==>
      Decide(provider, blacklist, request) == Propagated(e)
    ensures provider.validateRefreshToken(RefreshCookie(request.cookies).value) == Returned(true) &&
            provider.createNewAccessToken(RefreshCookie(request.cookies).value) == Threw(e) ==>
      Decide(provider, blacklist, request) == Propagated(e)
  {
  }

  /**
   * A token minted from the refresh cookie is never looked up in the
   * blacklist: without a presented token the decision is the same for every
   * blacklist, and it is the validation of the minted token.
   */
  lemma MintedTokenSkipsBlacklist(provider: FilterProvider, blacklist: set<string>, blacklist': set<string>, request: Request)
    requires !HasText(ResolveToken(request.authorization))
    requires RefreshCookie(request.cookies).Some?
    requires provider.validateRefreshToken(RefreshCookie(request.cookies).value) == Returned(true)
    ensures Decide(provider, blacklist, request) == Decide(provider, blacklist', request)
    ensures provider.createNewAccessToken(RefreshCookie(request.cookies).value).Returned? ==>
      Decide(provider, blacklist, request)
        == Validated(provider, provider.createNewAccessToken(RefreshCookie(request.cookies).value).value, request)
  {
  }

  /**
   * A presented token on the blacklist is rejected before validation: the
   * decision is Blacklisted whatever the provider's operations do.
   */
  lemma BlacklistBeforeValidation(provider: FilterProvider, provider': FilterProvider, blacklist: set<string>, request: Request)
    requires HasText(ResolveToken(request.authorization)) && ResolveToken(request.authorization).value in blacklist
    ensures Decide(provider, blacklist, request) == Reject(Blacklisted)
    ensures Decide(provider', blacklist, request) == Reject(Blacklisted)
  {
  }

  /**
   * An admitted request carries the authentication of the token validation
   * gave back (which may differ from the one presented), and that token came
   * from validating the presented token or the one minted from the cookie.
   */
  lemma AdmitUsesValidatedToken(provider: FilterProvider, blacklist: set<string>, request: Request)
    requires Decide(provider, blacklist, request).Admit?
    ensures var d := Decide(provider, blacklist, request);
      && provider.getAuthentication(d.token) == Returned(d.authentication)
      && var presented := ResolveToken(request.authorization);
         if HasText(presented) then
           presented.value !in blacklist && provider.validateAccessToken(presented.value, request) == Returned(Some(d.token))
         else
           && RefreshCookie(request.cookies).Some?
           && provider.validateRefreshToken(RefreshCookie(request.cookies).value) == Returned(true)
           && provider.createNewAccessToken(RefreshCookie(request.cookies).value).Returned?
           && provider.validateAccessToken(provider.createNewAccessToken(RefreshCookie(request.cookies).value).value, request)
                == Returned(Some(d.token))
  {
  }

  /**
   * The gatekeeper ends by an exception only when a provider call threw it:
   * a provider whose calls never throw never leads to Propagated.
   */
  lemma RaisedOnlyFromProvider(provider: FilterProvider, blacklist: set<string>, request: Request)
    requires forall r :: provider.validateRefreshToken(r).Returned?
    requires forall r :: provider.createNewAccessToken(r).Returned?
    requires forall t, q :: provider.validateAccessToken(t, q).Returned?
    requires forall t :: provider.getAuthentication(t).Returned?
    ensures !Decide(provider, blacklist, request).Propagated?
  {
  }

  class CustomAuthorizationFilter {
    const tokenProvider: FilterProvider
    /** The Redis blacklist of revoked access tokens. */
    const redis: Blacklist

    constructor (tokenProvider: FilterProvider, redis: Blacklist)
      ensures this.tokenProvider == tokenProvider && this.redis == redis
    {
      this.tokenProvider := tokenProvider;
      this.redis := redis;
    }

    /**
     * Handles one request. Rejected: the response is 401 with a JSON content
     * type, no authentication is installed and the request is not forwarded.
     * Admitted: the decided authentication is installed and the request is
     * forwarded exactly once, with that authentication in the context. A
     * provider exception propagates: the gatekeeper has then written
     * nothing, installed nothing and not forwarded.
     */
    method DoFilterInternal(request: Request, response: Response,
                            context: SecurityContext<Authentication>, filterChain: FilterChain<Authentication>)
      returns (outcome: Completion<()>)
      modifies response, context, filterChain
      ensures match Decide(tokenProvider, redis.keys, request)
        case Reject(_) =>
          && outcome == Returned(())
          && response.status == SC_UNAUTHORIZED && response.contentType == Some(APPLICATION_JSON)
          && response.headers == old(response.headers)
          && context.authentication == old(context.authentication)
          && filterChain.forwarded == old(filterChain.forwarded)
        case Admit(_, authentication) =>
          && outcome == Returned(())
          && unchanged(response)
          && context.authentication == Some(authentication)
          && filterChain.forwarded == old(filterChain.forwarded) + [Some(authentication)]
        case Propagated(e) =>
          && outcome == Threw(e)
          && unchanged(response)
          && context.authentication == old(context.authentication)
          && filterChain.forwarded == old(filterChain.forwarded)
    {
      var nowCreated := false;
      var accessToken := ResolveToken(request.authorization);

      if !HasText(accessToken) {
        var refreshToken := GetRefreshToken(request);
        if refreshToken.Some? {
          var refreshTokenValid := tokenProvider.validateRefreshToken(refreshToken.value);
          if refreshTokenValid.Threw? {
            return Threw(refreshTokenValid.exception);
          }
          if refreshTokenValid.value {
            var created := tokenProvider.createNewAccessToken(refreshToken.value);
            if created.Threw? {
              return Threw(created.exception);
            }
            accessToken := Some(created.value);
            nowCreated := true;
          } else {
            response.contentType := Some(APPLICATION_JSON);
            response.status := SC_UNAUTHORIZED;
            return Returned(());
          }
        } else {
          response.contentType := Some(APPLICATION_JSON);
          response.status := SC_UNAUTHORIZED;
          return Returned(());
        }
      }

      if !nowCreated && accessToken.value in redis.keys {
        response.contentType := Some(APPLICATION_JSON);
        response.status := SC_UNAUTHORIZED;
        return Returned(());
      }

      var validatedAccessToken := tokenProvider.validateAccessToken(accessToken.value, request);
      if validatedAccessToken.Threw? {
        return Threw(validatedAccessToken.exception);
      }
      if validatedAccessToken.value.Some? {
        var authentication := tokenProvider.getAuthentication(validatedAccessToken.value.value);
        if authentication.Threw? {
          return Threw(authentication.exception);
        }
        context.SetAuthentication(authentication.value);
      } else {
        response.contentType := Some(APPLICATION_JSON);
        response.status := SC_UNAUTHORIZED;
        return Returned(());
      }

      filterChain.DoFilter(context);
      return Returned(());
    }
  }
}
