/**
 * The login endpoint: on a successful credential check it records the
 * issued refresh token against the issued access token and answers with the
 * access token as a bearer `Authorization` header, the refresh token, and
 * the refresh token's lifetime in whole seconds.
 */
module AuthApi {
  import opened Wrappers
  import opened Servlet
  import opened Stores
  import opened Jwt
  import opened JavaInt

  const REFRESH_TOKEN_HEADER: string := "refresh-token"
  const REFRESH_TOKEN_EXP_TIME_HEADER: string := "refresh-token-exp-time"
  const LOGIN_FAILED_MESSAGE: string := "아이디 / 비밀번호 불일치"

  /** The token pair the authentication service hands back for good credentials. */
  datatype TokenResponse = TokenResponse(accessToken: string, refreshToken: string)

  /** The endpoint's answer: an error status with a message, or success with headers. */
  datatype ApiResult = Error(status: int, message: string) | Success(headers: map<string, string>)

  /**
   * The header's seconds value as the expression is written: the millisecond
   * lifetime is narrowed to an `int` first and divided by 1000 afterwards.
   */
  function ExpSecondsAsWritten(refreshTokenExpTime: int): (seconds: int)
    ensures -2147483 <= seconds <= 2147483
    ensures 0 <= refreshTokenExpTime <= INT_MAX ==>
      0 <= seconds && seconds * 1000 <= refreshTokenExpTime < seconds * 1000 + 1000
  {
    Quot(NarrowToInt(refreshTokenExpTime), 1000)
  }

  /** Within the `int` range the as-written value is the lifetime in whole seconds. */
  lemma AsWrittenAgreesInIntRange(refreshTokenExpTime: int)
    requires 0 <= refreshTokenExpTime <= INT_MAX
    ensures ExpSecondsAsWritten(refreshTokenExpTime) == ExpSeconds(refreshTokenExpTime)
  {
  }

  /** A 30-day lifetime (2592000000 ms) wraps on the narrowing and yields a negative number of seconds. */
  lemma AsWrittenWrapsForThirtyDays()
    ensures ExpSecondsAsWritten(2592000000) == -1702967
    ensures ExpSeconds(2592000000) == 2592000
  {
  }

  /**
   * The lifetime in whole seconds: the millisecond value divided by 1000
   * first and narrowed to an `int` afterwards. For every lifetime whose
   * seconds fit an `int`, it is exactly the number of whole seconds.
   */
  function ExpSeconds(refreshTokenExpTime: int): (seconds: int)
    ensures InIntRange(seconds)
    ensures 0 <= refreshTokenExpTime < (INT_MAX + 1) * 1000 ==>
      0 <= seconds && seconds * 1000 <= refreshTokenExpTime < seconds * 1000 + 1000
  {
    var q := Quot(refreshTokenExpTime, 1000);
    assert 0 <= refreshTokenExpTime < (INT_MAX + 1) * 1000 ==> 0 <= q <= INT_MAX;
    NarrowToInt(q)
  }

  class AuthController {
    const refreshTokenService: RefreshStore
    /** The refresh token lifetime in milliseconds. */
    const refreshTokenExpTime: int

    constructor (refreshTokenService: RefreshStore, refreshTokenExpTime: int)
      ensures this.refreshTokenService == refreshTokenService && this.refreshTokenExpTime == refreshTokenExpTime
    {
      this.refreshTokenService := refreshTokenService;
      this.refreshTokenExpTime := refreshTokenExpTime;
    }

    /**
     * Logs in with the authentication service's answer. A failed credential
     * check is a 400 error and the store is untouched. A successful one saves
     * the pair with expiry `now + refreshTokenExpTime` and answers with the
     * three headers; the `Authorization` header resolves back to the access
     * token, the seconds header parses back to the lifetime in seconds, and
     * the saved pair validates. The seconds header is computed as written,
     * narrowing before dividing; for lifetimes within the `int` range it is
     * the lifetime in whole seconds.
     */
    method Login(tokenResponse: Option<TokenResponse>, now: int) returns (result: ApiResult)
      modifies refreshTokenService
      ensures tokenResponse.None? ==>
        && result == Error(SC_BAD_REQUEST, LOGIN_FAILED_MESSAGE)
        && refreshTokenService.records == old(refreshTokenService.records)
      ensures tokenResponse.Some? ==>
        var t := tokenResponse.value;
        && refreshTokenService.records
             == old(refreshTokenService.records)[t.accessToken := RefreshRecord(t.refreshToken, now + refreshTokenExpTime)]
        && result == Success(map[AUTHORIZATION_HEADER := BEARER_PREFIX + t.accessToken,
                                 REFRESH_TOKEN_HEADER := t.refreshToken,
                                 REFRESH_TOKEN_EXP_TIME_HEADER := DecimalString(ExpSecondsAsWritten(refreshTokenExpTime))])
      ensures tokenResponse.Some? ==>
        var t := tokenResponse.value;
        && ResolveToken(Some(result.headers[AUTHORIZATION_HEADER])) == Some(t.accessToken)
        && ParseDecimal(result.headers[REFRESH_TOKEN_EXP_TIME_HEADER]) == Some(ExpSecondsAsWritten(refreshTokenExpTime))
        && (0 <= refreshTokenExpTime <= INT_MAX ==>
              ParseDecimal(result.headers[REFRESH_TOKEN_EXP_TIME_HEADER]) == Some(ExpSeconds(refreshTokenExpTime)))
        && ValidateRefreshToken(Some(t.refreshToken), t.accessToken, refreshTokenService.records)
    {
      if tokenResponse.None? {
        return Error(SC_BAD_REQUEST, LOGIN_FAILED_MESSAGE);
      }
      var t := tokenResponse.value;
      var expTime := now + refreshTokenExpTime;
      refreshTokenService.Save(t.accessToken, t.refreshToken, expTime);

      var httpHeaders: map<string, string> := map[];
      httpHeaders := httpHeaders[AUTHORIZATION_HEADER := BEARER_PREFIX + t.accessToken];
      httpHeaders := httpHeaders[REFRESH_TOKEN_HEADER := t.refreshToken];
      httpHeaders := httpHeaders[REFRESH_TOKEN_EXP_TIME_HEADER := DecimalString(ExpSecondsAsWritten(refreshTokenExpTime))];

      ResolveBearerHeader(t.accessToken);
      DecimalRoundTrip(ExpSecondsAsWritten(refreshTokenExpTime));
      if 0 <= refreshTokenExpTime <= INT_MAX {
        AsWrittenAgreesInIntRange(refreshTokenExpTime);
      }
      return Success(httpHeaders);
    }
  }

  /**
   * Login is what makes rotation possible: once the pair is saved, a later
   * request whose access token has expired and whose first `refresh-token`
   * cookie is the issued refresh token (still parseable, for a known user)
   * gets a new access token minted for that user.
   */
  lemma LoginEnablesRotation(provider: TokenProvider, records: map<string, RefreshRecord>, t: TokenResponse,
                             expiresAt: int, request: Request, later: int)
    requires provider.codec.verify(t.accessToken, later).Expired?
    requires RefreshCookie(request.cookies) == Some(t.refreshToken)
    requires provider.codec.verify(t.refreshToken, later).Valid?
    requires provider.codec.verify(t.refreshToken, later).claims.subject in provider.users
    ensures var user := provider.users[provider.codec.verify(t.refreshToken, later).claims.subject];
      provider.CheckAccessToken(t.accessToken, request, later, records[t.accessToken := RefreshRecord(t.refreshToken, expiresAt)])
        == Rotated(provider.CreateAccessToken(Authentication(user.username, user.authorities), later))
  {
    SavedPairValidates(records, t.accessToken, t.refreshToken, expiresAt);
  }
}
