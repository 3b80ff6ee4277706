/**
 * The token provider: reading the bearer token and the refresh cookie from a
 * request, matching a presented refresh token against the store, issuing
 * access and refresh tokens, and classifying an access token — rotating it
 * silently when it has expired and the request carries the matching refresh
 * token.
 */
module Jwt {
  import opened Wrappers
  import opened Servlet
  import opened JwtCodec
  import opened Stores

  const BEARER_PREFIX: string := "Bearer "
  const REFRESH_COOKIE: string := "refresh-token"

  /** An authentication: the principal's name and its granted authorities in iteration order. */
  datatype Authentication = Authentication(name: string, authorities: seq<string>)

  /** What the user-details service loads for a username. */
  datatype UserDetails = UserDetails(username: string, authorities: seq<string>)

  /** The exceptions that escape the provider's methods uncaught. */
  datatype JavaException = ExpiredJwtException | SignatureException | MalformedJwtException | UsernameNotFoundException

  /** How a Java call ends: with a value, or by throwing. */
  datatype Completion<T> = Returned(value: T) | Threw(exception: JavaException)

  predicate IsBearer(header: string)
  {
    |BEARER_PREFIX| <= |header| && header[..|BEARER_PREFIX|] == BEARER_PREFIX
  }

  /**
   * The access token carried by the `Authorization` header: the text after a
   * leading (case-sensitive) "Bearer ", the whole header when it has no such
   * prefix, and nothing when the header is absent.
   */
  function ResolveToken(authorization: Option<string>): (token: Option<string>)
    ensures authorization.None? <==> token.None?
    ensures authorization.Some? && IsBearer(authorization.value) ==> BEARER_PREFIX + token.value == authorization.value
    ensures authorization.Some? && !IsBearer(authorization.value) ==> token == authorization
  {
    match authorization
    case None => None
    case Some(header) =>
      if IsBearer(header) then Some(header[|BEARER_PREFIX|..]) else Some(header)
  }

  /** Stripping the prefix inverts adding it: a "Bearer " header yields exactly the token after it. */
  lemma ResolveBearerHeader(token: string)
    ensures ResolveToken(Some(BEARER_PREFIX + token)) == Some(token)
  {
    assert IsBearer(BEARER_PREFIX + token) by {
      assert (BEARER_PREFIX + token)[..|BEARER_PREFIX|] == BEARER_PREFIX;
    }
    assert (BEARER_PREFIX + token)[|BEARER_PREFIX|..] == token;
  }

  /**
   * The value of the first cookie called `name`; the result is absent exactly
   * when no cookie has that name.
   */
  function FirstCookieValue(cookies: seq<Cookie>, name: string): (value: Option<string>)
    ensures value.None? <==> forall i :: 0 <= i < |cookies| ==> cookies[i].name != name
    ensures value.Some? ==>
      exists i :: 0 <= i < |cookies| && cookies[i] == Cookie(name, value.value) &&
        forall j :: 0 <= j < i ==> cookies[j].name != name
  {
    if cookies == [] then None
    else if cookies[0].name == name then Some(cookies[0].value)
    else
      var rest := FirstCookieValue(cookies[1..], name);
      assert forall i :: 1 <= i < |cookies| ==> cookies[i] == cookies[1..][i - 1];
      rest
  }

  /** The refresh token a request carries: its first `refresh-token` cookie, if any. */
  function RefreshCookie(cookies: Option<seq<Cookie>>): (refreshToken: Option<string>)
    ensures refreshToken.Some? <==>
      cookies.Some? && exists i :: 0 <= i < |cookies.value| && cookies.value[i].name == REFRESH_COOKIE
    ensures refreshToken.Some? ==>
      exists i :: 0 <= i < |cookies.value| && cookies.value[i] == Cookie(REFRESH_COOKIE, refreshToken.value) &&
        forall j :: 0 <= j < i ==> cookies.value[j].name != REFRESH_COOKIE
  {
    match cookies
    case None => None
    case Some(cs) => FirstCookieValue(cs, REFRESH_COOKIE)
  }

  /** Scans the request's cookies for the refresh token, stopping at the first match. */
  method GetRefreshToken(request: Request) returns (refreshToken: Option<string>)
    ensures refreshToken == RefreshCookie(request.cookies)
  {
    refreshToken := None;
    if request.cookies.Some? && |request.cookies.value| > 0 {
      var cookies := request.cookies.value;
      var i := 0;
      while i < |cookies|
        invariant 0 <= i <= |cookies|
        invariant refreshToken == None
        invariant FirstCookieValue(cookies[i..], REFRESH_COOKIE) == FirstCookieValue(cookies, REFRESH_COOKIE)
      {
        assert cookies[i..][1..] == cookies[i + 1..];
        if cookies[i].name == REFRESH_COOKIE {
          refreshToken := Some(cookies[i].value);
          break;
        }
        i := i + 1;
      }
    }
  }

  /**
   * Whether the presented refresh token is the one stored against
   * `accessToken`. An absent token never matches and an access token with no
   * record never matches; the record's expiry instant is not consulted.
   */
  function ValidateRefreshToken(requestRefreshToken: Option<string>, accessToken: string,
                                records: map<string, RefreshRecord>): (valid: bool)
    ensures valid ==> requestRefreshToken.Some? && accessToken in records
    ensures valid <==> requestRefreshToken.Some? && Lookup(records, accessToken) == Some(requestRefreshToken.value)
  {
    if requestRefreshToken.None? then false
    else if accessToken !in records then false
    else requestRefreshToken.value == records[accessToken].refreshToken
  }

  /** The refresh token the store keeps for `accessToken`, if it keeps one. */
  function Lookup(records: map<string, RefreshRecord>, accessToken: string): Option<string>
  {
    if accessToken in records then Some(records[accessToken].refreshToken) else None
  }

  /** An absent refresh token is rejected whatever the store holds. */
  lemma AbsentRefreshTokenRejected(accessToken: string, records: map<string, RefreshRecord>)
    ensures !ValidateRefreshToken(None, accessToken, records)
  {
  }

  /** The match ignores the expiry instant recorded with the refresh token. */
  lemma RefreshExpiryIgnored(presented: Option<string>, accessToken: string, records: map<string, RefreshRecord>,
                             refreshToken: string, expiresAt: int, expiresAt': int)
    ensures ValidateRefreshToken(presented, accessToken, records[accessToken := RefreshRecord(refreshToken, expiresAt)])
         == ValidateRefreshToken(presented, accessToken, records[accessToken := RefreshRecord(refreshToken, expiresAt')])
  {
  }

  /** A pair just saved matches: the presented refresh token validates against its access token. */
  lemma SavedPairValidates(records: map<string, RefreshRecord>, accessToken: string, refreshToken: string, expiresAt: int)
    ensures ValidateRefreshToken(Some(refreshToken), accessToken, records[accessToken := RefreshRecord(refreshToken, expiresAt)])
  {
  }

  /**
   * Re-keying a record transfers its validity to the new access token; the
   * superseded access token no longer matches any refresh token.
   */
  lemma RekeyTransfersRefreshToken(records: map<string, RefreshRecord>, oldAccess: string, newAccess: string,
                                   presented: Option<string>)
    requires oldAccess in records
    ensures ValidateRefreshToken(presented, newAccess, Rekey(records, oldAccess, newAccess))
        == ValidateRefreshToken(presented, oldAccess, records)
    ensures oldAccess != newAccess ==> !ValidateRefreshToken(presented, oldAccess, Rekey(records, oldAccess, newAccess))
  {
  }

  /** The first granted authority, or nothing when none is granted. */
  function FirstAuthority(authorities: seq<string>): (authority: Option<string>)
    ensures authority.None? <==> authorities == []
    ensures authority.Some? ==> authority.value == authorities[0]
  {
    if |authorities| > 0 then Some(authorities[0]) else None
  }

  /** The claims signed into a token issued for `authentication` at `now` and living `lifetime` milliseconds. */
  function IssueClaims(authentication: Authentication, now: int, lifetime: int): (c: Claims)
    ensures c.subject == authentication.name
    ensures c.authority == FirstAuthority(authentication.authorities)
    ensures c.expiresAt == now + lifetime
  {
    Claims(authentication.name, FirstAuthority(authentication.authorities), now + lifetime)
  }

  class TokenProvider {
    /** The signing key, decoded once at start-up, lives inside the codec. */
    const codec: Codec
    const accessTokenExpTime: int
    const refreshTokenExpTime: int
    /** The user-details service: username -> details. */
    const users: map<string, UserDetails>
    /** The refresh-token service's store. */
    const refreshTokens: RefreshStore

    constructor (codec: Codec, accessTokenExpTime: int, refreshTokenExpTime: int,
                 users: map<string, UserDetails>, refreshTokens: RefreshStore)
      ensures this.codec == codec && this.users == users && this.refreshTokens == refreshTokens
      ensures this.accessTokenExpTime == accessTokenExpTime && this.refreshTokenExpTime == refreshTokenExpTime
    {
      this.codec := codec;
      this.accessTokenExpTime := accessTokenExpTime;
      this.refreshTokenExpTime := refreshTokenExpTime;
      this.users := users;
      this.refreshTokens := refreshTokens;
    }

    /** Under a sound codec the new access token reads back, live at issue, as the authentication's claims. */
    function CreateAccessToken(authentication: Authentication, now: int): (token: string)
      ensures Sound(codec) && accessTokenExpTime >= 0 ==>
        codec.verify(token, now) == Valid(IssueClaims(authentication, now, accessTokenExpTime))
    {
      codec.issue(IssueClaims(authentication, now, accessTokenExpTime))
    }

    /** Under a sound codec the new refresh token reads back, live at issue, as the authentication's claims. */
    function CreateRefreshToken(authentication: Authentication, now: int): (token: string)
      ensures Sound(codec) && refreshTokenExpTime >= 0 ==>
        codec.verify(token, now) == Valid(IssueClaims(authentication, now, refreshTokenExpTime))
    {
      codec.issue(IssueClaims(authentication, now, refreshTokenExpTime))
    }

    /**
     * A token from either create method verifies, under a sound codec, to the
     * authentication's name and first authority and to an expiry `lifetime`
     * after issue: live up to that instant and expired after it.
     */
    lemma CreatedTokensVerify(authentication: Authentication, now: int, at: int)
      requires Sound(codec)
      ensures var c := IssueClaims(authentication, now, accessTokenExpTime);
        codec.verify(CreateAccessToken(authentication, now), at) == (if at > now + accessTokenExpTime then Expired(c) else Valid(c))
      ensures var c := IssueClaims(authentication, now, refreshTokenExpTime);
        codec.verify(CreateRefreshToken(authentication, now), at) == (if at > now + refreshTokenExpTime then Expired(c) else Valid(c))
    {
    }

    /**
     * The authentication a token stands for: its subject's details from the
     * user-details service. Parsing an expired, wrongly signed or malformed token throws, and
     * so does a subject the service does not know.
     */
    function GetAuthentication(token: string, now: int): (r: Completion<Authentication>)
      ensures r.Returned? <==> codec.verify(token, now).Valid? && codec.verify(token, now).claims.subject in users
      ensures r.Returned? ==>
        var details := users[codec.verify(token, now).claims.subject];
        r.value.name == details.username && r.value.authorities == details.authorities
      ensures codec.verify(token, now).Expired? ==> r == Threw(ExpiredJwtException)
      ensures codec.verify(token, now).BadSignature? ==> r == Threw(SignatureException)
      ensures codec.verify(token, now).Malformed? ==> r == Threw(MalformedJwtException)
      ensures codec.verify(token, now).Valid? && codec.verify(token, now).claims.subject !in users ==>
        r == Threw(UsernameNotFoundException)
    {
      match codec.verify(token, now)
      case BadSignature => Threw(SignatureException)
      case Malformed => Threw(MalformedJwtException)
      case Expired(_) => Threw(ExpiredJwtException)
      case Valid(claims) =>
        if claims.subject in users then
          var details := users[claims.subject];
          Returned(Authentication(details.username, details.authorities))
        else Threw(UsernameNotFoundException)
    }

    /**
     * What `ValidateAccessToken` decides for an access token, given the
     * store's records: accept a live token; reject a wrongly signed or
     * malformed one; for an
     * expired one, reject unless the request's refresh cookie matches the
     * stored pair, in which case a new token is minted from the refresh
     * token's subject (or the parse of the refresh token throws).
     */
    function CheckAccessToken(accessToken: string, request: Request, now: int,
                              records: map<string, RefreshRecord>): (check: AccessCheck)
      ensures check == Accepted <==> codec.verify(accessToken, now).Valid?
      ensures check.Rotated? || check.Raised? ==>
        codec.verify(accessToken, now).Expired? &&
        ValidateRefreshToken(RefreshCookie(request.cookies), accessToken, records)
      ensures check.Raised? ==> GetAuthentication(RefreshCookie(request.cookies).value, now) == Threw(check.exception)
      ensures check.Rotated? ==>
        GetAuthentication(RefreshCookie(request.cookies).value, now).Returned? &&
        check.newAccessToken == CreateAccessToken(GetAuthentication(RefreshCookie(request.cookies).value, now).value, now)
    {
      match codec.verify(accessToken, now)
      case Valid(_) => Accepted
      case BadSignature => Rejected
      case Malformed => Rejected
      case Expired(_) =>
        var refreshToken := RefreshCookie(request.cookies);
        if !ValidateRefreshToken(refreshToken, accessToken, records) then Rejected
        else match GetAuthentication(refreshToken.value, now)
          case Threw(e) => Raised(e)
          case Returned(authentication) => Rotated(CreateAccessToken(authentication, now))
    }

    /**
     * Classifies the access token. A live token gives true and changes
     * nothing. A wrongly signed or malformed one sets 401 and gives false. An expired one with
     * a matching refresh cookie is rotated: the store's record moves to the
     * new token, the new token (without "Bearer ") is put in the response's
     * `Authorization` header, and the result is still false. An expired one
     * without a matching cookie sets 401 and gives false.
     */
    method ValidateAccessToken(accessToken: string, request: Request, response: Response, now: int)
      returns (r: Completion<bool>)
      modifies response, refreshTokens
      ensures match CheckAccessToken(accessToken, request, now, old(refreshTokens.records))
        case Accepted =>
          r == Returned(true) && unchanged(response) && refreshTokens.records == old(refreshTokens.records)
        case Rejected =>
          && r == Returned(false)
          && response.status == SC_UNAUTHORIZED
          && response.headers == old(response.headers) && response.contentType == old(response.contentType)
          && refreshTokens.records == old(refreshTokens.records)
        case Rotated(newAccessToken) =>
          && r == Returned(false)
          && response.headers == old(response.headers)[AUTHORIZATION_HEADER := newAccessToken]
          && response.status == old(response.status) && response.contentType == old(response.contentType)
          && refreshTokens.records == Rekey(old(refreshTokens.records), accessToken, newAccessToken)
        case Raised(e) =>
          r == Threw(e) && unchanged(response) && refreshTokens.records == old(refreshTokens.records)
    {
      match codec.verify(accessToken, now) {
        case Valid(_) =>
          return Returned(true);
        case BadSignature =>
          response.status := SC_UNAUTHORIZED;
          return Returned(false);
        case Malformed =>
          response.status := SC_UNAUTHORIZED;
          return Returned(false);
        case Expired(_) =>
          var refreshToken := GetRefreshToken(request);
          if ValidateRefreshToken(refreshToken, accessToken, refreshTokens.records) {
            var authentication := GetAuthentication(refreshToken.value, now);
            if authentication.Threw? {
              return Threw(authentication.exception);
            }
            var newAccessToken := CreateAccessToken(authentication.value, now);
            refreshTokens.UpdateRefreshToken(accessToken, newAccessToken);
            response.headers := response.headers[AUTHORIZATION_HEADER := newAccessToken];
          } else {
            response.status := SC_UNAUTHORIZED;
            return Returned(false);
          }
      }
      return Returned(false);
    }

    /**
     * Rotation happens only for an expired access token whose stored refresh
     * token the request presents, and the minted token is, under a sound
     * codec, live at the moment of rotation and names the refresh token's
     * user.
     */
    lemma RotationOnlyFromStoredPair(accessToken: string, request: Request, now: int,
                                     records: map<string, RefreshRecord>, newAccessToken: string)
      requires Sound(codec) && accessTokenExpTime >= 0
      requires CheckAccessToken(accessToken, request, now, records) == Rotated(newAccessToken)
      ensures codec.verify(accessToken, now).Expired?
      ensures ValidateRefreshToken(RefreshCookie(request.cookies), accessToken, records)
      ensures var user := users[codec.verify(RefreshCookie(request.cookies).value, now).claims.subject];
        codec.verify(newAccessToken, now) == Valid(Claims(user.username, FirstAuthority(user.authorities), now + accessTokenExpTime))
    {
      var refreshToken := RefreshCookie(request.cookies).value;
      var user := users[codec.verify(refreshToken, now).claims.subject];
      var authentication := Authentication(user.username, user.authorities);
      assert newAccessToken == CreateAccessToken(authentication, now);
      CreatedTokensVerify(authentication, now, now);
    }

    /**
     * Under a sound codec a rotation mints a token different from the expired
     * one, and once the record has moved to it the superseded access token can
     * never be rotated again, whatever cookie a later request presents.
     */
    lemma SupersededTokenNotRotatedAgain(accessToken: string, request: Request, now: int,
                                         records: map<string, RefreshRecord>, newAccessToken: string,
                                         laterRequest: Request, later: int)
      requires Sound(codec) && accessTokenExpTime >= 0
      requires CheckAccessToken(accessToken, request, now, records) == Rotated(newAccessToken)
      ensures newAccessToken != accessToken
      ensures !CheckAccessToken(accessToken, laterRequest, later, Rekey(records, accessToken, newAccessToken)).Rotated?
    {
      RotationOnlyFromStoredPair(accessToken, request, now, records, newAccessToken);
      assert codec.verify(newAccessToken, now).Valid? && codec.verify(accessToken, now).Expired?;
      RekeyTransfersRefreshToken(records, accessToken, newAccessToken, RefreshCookie(laterRequest.cookies));
    }

    /** A wrongly signed or malformed token, or an expired one without a matching refresh cookie, is rejected. */
    lemma RejectionCases(accessToken: string, request: Request, now: int, records: map<string, RefreshRecord>)
      ensures CheckAccessToken(accessToken, request, now, records) == Rejected <==>
        (codec.verify(accessToken, now).BadSignature? || codec.verify(accessToken, now).Malformed? ||
         (codec.verify(accessToken, now).Expired? && !ValidateRefreshToken(RefreshCookie(request.cookies), accessToken, records)))
    {
    }
  }

  /** The decision `ValidateAccessToken` reaches. */
  datatype AccessCheck = Accepted | Rejected | Rotated(newAccessToken: string) | Raised(exception: JavaException)
}
