# NestNet access/refresh token authentication — a Dafny model

This project models the token-authentication core of the NestNet membership
backend. Three pieces are covered:

- **`TokenProvider`** (module `Jwt`). It reads the bearer token from the
  `Authorization` header and the `refresh-token` cookie. It matches a
  presented refresh token against the one stored for an access token. It
  issues access and refresh tokens. It classifies an access token as valid,
  wrongly signed or malformed, or expired, and an expired one is rotated silently when the
  request presents the matching refresh token.
- **`CustomAuthorizationFilter.doFilterInternal`** (module `Auth`). This is
  the per-request gatekeeper. It mints a token from the refresh cookie,
  rejects a blacklisted token, or validates the token. It then either
  installs the authentication and forwards the request, or answers 401 and
  stops.
- **`AuthController.login`** (module `AuthApi`). It saves the refresh record
  that rotation relies on. It answers with the `Bearer` header, the refresh
  token and the refresh lifetime in seconds.

Supporting modules:

- `JwtCodec` is the signed-token codec, kept abstract. `verify` gives
  `Valid(claims)`, `Expired(claims)`, `BadSignature` or `Malformed`, and `issue` signs
  claims. `Sound` states the round trip the core relies on.
- `Stores` holds the refresh store (a map from access token to refresh
  record) and the blacklist (a set).
- `Servlet` holds the request, the response, the security context and the
  filter chain.
- `JavaInt` holds Java `int` narrowing, truncating division and
  `Integer.toString`.
- `Wrappers` holds the option type used for Java `null`.

The current time is a parameter (`now`, in milliseconds). The user-details
service is a map from username to details. The refresh-token service, the
Redis utility, the authentication service and the authenticator are not
part of this model. Each is replaced by the state it stands for: the store's
map, the blacklist's set, a `TokenResponse` option and the security context.

Behaviours of the code worth knowing, each stated in the model:

- A rotated token is echoed in the `Authorization` header without the
  `"Bearer "` prefix. `validateAccessToken` still returns false after a
  rotation (`TokenProvider.java:175`, `:183`).
- The refresh match compares strings only. It does not check the expiry
  instant stored with the refresh token (`TokenProvider.java:247-252`).
- A token counts as expired when `now` is strictly after its expiry instant.
  This is the parser's `after` test.
- The refresh-token service is not part of this model. Its
  `updateRefreshToken(oldAccess, newAccess)` (`TokenProvider.java:173`) is
  assumed to move the record kept under the old access token so that it is
  kept under the new one (`Stores.Rekey`). A record already kept under the
  new access token is overwritten, and nothing else changes. Under that
  assumption, a superseded access token can never rotate again, even with
  the same refresh token (`SupersededTokenNotRotatedAgain`). Nothing in the
  model makes a rotation atomic with respect to other requests.
- The store is assumed to be keyed by access token, as `findByAccessToken`
  and `updateRefreshToken` use it; `save` is assumed to replace any record
  kept under the same access token.

The gatekeeper calls provider methods from another revision of the
provider. Three of them have signatures that differ from those of
`TokenProvider.java`: a one-argument `validateRefreshToken`, a
`createNewAccessToken`, and a `validateAccessToken` that returns a token.
The fourth, the one-argument `getAuthentication`, has the same signature as
in `TokenProvider.java` but belongs to the same other revision. So `Auth` is
modelled against an interface value, `FilterProvider`, with exactly these
four operations. Each of them may throw, and an exception leaves the
gatekeeper uncaught. `Jwt` models the `TokenProvider` as written.

## Model

| member | source | states |
|---|---|---|
| `Jwt.ResolveToken` | src/main/java/NestNet/NestNetWebSite/config/jwt/TokenProvider.java:189-202 | An absent header gives null. A header starting with "Bearer " gives the token that, prefixed with "Bearer ", is the header. Any other header is returned unchanged. |
| `Jwt.ResolveBearerHeader` | src/main/java/NestNet/NestNetWebSite/config/jwt/TokenProvider.java:194-195 | For every token t, resolving the header "Bearer " + t gives exactly t. |
| `Jwt.FirstCookieValue` | src/main/java/NestNet/NestNetWebSite/config/jwt/TokenProvider.java:211-219 | The result is absent exactly when no cookie has the name. Otherwise it is the value of the first cookie with that name. |
| `Jwt.GetRefreshToken` | src/main/java/NestNet/NestNetWebSite/config/jwt/TokenProvider.java:207-224 | The loop with its early break returns the first `refresh-token` cookie's value. It returns null for a null cookie array, an empty one, or one without that name. |
| `Jwt.RefreshCookie` | src/main/java/NestNet/NestNetWebSite/config/jwt/TokenProvider.java:209-223 | A refresh token is found exactly when the cookie array is present and some cookie is named `refresh-token`. It is the value of the first such cookie. |
| `Jwt.ValidateRefreshToken` | src/main/java/NestNet/NestNetWebSite/config/jwt/TokenProvider.java:229-253 | True exactly when a token is presented and the store keeps that same refresh token for the access token. |
| `Jwt.AbsentRefreshTokenRejected` | src/main/java/NestNet/NestNetWebSite/config/jwt/TokenProvider.java:232-235 | A null presented refresh token is rejected, whatever the store holds. |
| `Jwt.RefreshExpiryIgnored` | src/main/java/NestNet/NestNetWebSite/config/jwt/TokenProvider.java:247-252 | The match does not depend on the expiry instant stored with the refresh token. |
| `Jwt.SavedPairValidates` | src/main/java/NestNet/NestNetWebSite/config/jwt/TokenProvider.java:237-250 | Once a pair is saved, its refresh token validates against its access token. |
| `Jwt.RekeyTransfersRefreshToken` | src/main/java/NestNet/NestNetWebSite/config/jwt/TokenProvider.java:173 | After a re-key, the new access token validates exactly as the old one did. The old one, if different, validates with no refresh token. |
| `Stores.Rekey` | src/main/java/NestNet/NestNetWebSite/config/jwt/TokenProvider.java:173 | The record moves from the old access token to the new one. Other records are unchanged. A store without the old key is left as it is. |
| `Stores.RefreshStore.UpdateRefreshToken` | src/main/java/NestNet/NestNetWebSite/config/jwt/TokenProvider.java:173 | The store's new map is the re-key of the old map. |
| `Jwt.FirstAuthority` | src/main/java/NestNet/NestNetWebSite/config/jwt/TokenProvider.java:77-80 | The authority claim is the first granted authority, or null exactly when none is granted. |
| `Jwt.IssueClaims` | src/main/java/NestNet/NestNetWebSite/config/jwt/TokenProvider.java:70-113 | Issued claims carry subject = the authentication's name, the first authority, and expiry = now + lifetime. |
| `Jwt.TokenProvider.CreateAccessToken` | src/main/java/NestNet/NestNetWebSite/config/jwt/TokenProvider.java:70-89 | Under a sound codec and a non-negative lifetime, the new access token verifies at issue as live, with the authentication's name, first authority and expiry now + access lifetime. |
| `Jwt.TokenProvider.CreateRefreshToken` | src/main/java/NestNet/NestNetWebSite/config/jwt/TokenProvider.java:94-113 | Under a sound codec and a non-negative lifetime, the new refresh token verifies at issue as live, with the authentication's name, first authority and expiry now + refresh lifetime. |
| `Jwt.TokenProvider.CheckAccessToken` | src/main/java/NestNet/NestNetWebSite/config/jwt/TokenProvider.java:146-184 | Accepted exactly for a live token. A rotation or a propagated exception happens only for an expired token whose stored refresh token the request presents. The exception is the one parsing the refresh token or loading its user threw; the rotated token is the one minted for that user. |
| `Jwt.TokenProvider.CreatedTokensVerify` | src/main/java/NestNet/NestNetWebSite/config/jwt/TokenProvider.java:70-113 | Under a sound codec, access and refresh tokens verify to those claims. They are live until now + their configured lifetime and expired after it. |
| `Jwt.TokenProvider.GetAuthentication` | src/main/java/NestNet/NestNetWebSite/config/jwt/TokenProvider.java:115-141 | An authentication is produced exactly when the token parses as live and its subject is a known user. It carries that user's username and authorities. An expired token throws `ExpiredJwtException`, one signed with another key `SignatureException`, a malformed one `MalformedJwtException`, an unknown subject `UsernameNotFoundException`. |
| `Jwt.TokenProvider.ValidateAccessToken` | src/main/java/NestNet/NestNetWebSite/config/jwt/TokenProvider.java:146-184 | Live token: true, nothing changes. Bad signature or malformed: 401, false, store untouched. Expired with matching cookie: store re-keyed to the new token, new token in the `Authorization` header without "Bearer ", false. Expired without a match: 401, false, store untouched. An uncaught parse or lookup failure: the exception, nothing changed. |
| `Jwt.TokenProvider.RotationOnlyFromStoredPair` | src/main/java/NestNet/NestNetWebSite/config/jwt/TokenProvider.java:155-176 | A rotation happens only for an expired token whose stored refresh token the request presents. The minted token is live at rotation and names the refresh token's user. |
| `Jwt.TokenProvider.SupersededTokenNotRotatedAgain` | src/main/java/NestNet/NestNetWebSite/config/jwt/TokenProvider.java:161-173 | Under a sound codec a rotation mints a token different from the expired one. Once the record has moved to it, the old access token is never rotated again, whatever cookie a later request carries. |
| `Jwt.TokenProvider.RejectionCases` | src/main/java/NestNet/NestNetWebSite/config/jwt/TokenProvider.java:148-182 | The decision is Rejected exactly for a wrongly signed or malformed token, or for an expired one without a matching refresh cookie. |
| `Auth.HasText` | src/main/java/NestNet/NestNetWebSite/config/auth/CustomAuthorizationFilter.java:43 | True exactly when the token is not null and has a character that is not Java whitespace. |
| `Auth.Validated` | src/main/java/NestNet/NestNetWebSite/config/auth/CustomAuthorizationFilter.java:85-102 | Rejected exactly when validation yields null. Admitted with the validated token and the authentication built from it when both calls return. Otherwise the decision carries exactly the exception of the call that threw. |
| `Auth.Decide` | src/main/java/NestNet/NestNetWebSite/config/auth/CustomAuthorizationFilter.java:40-102 | The decision is "no credentials" exactly when the token has no text and there is no refresh cookie. It is "refresh token invalid" exactly when the token has no text, a refresh cookie is present and its validation returns false. It is "blacklisted" exactly when a token with text is presented and is on the blacklist. A presented token with text that is not blacklisted is decided by its validation alone. Without a presented token, an exception from validating the cookie propagates, and a cookie that validates is decided by minting. |
| `Auth.Minted` | src/main/java/NestNet/NestNetWebSite/config/auth/CustomAuthorizationFilter.java:56-58 | An exception from minting the access token propagates. Otherwise the decision is the validation of the minted token, and it is never one of the three rejections made before validation. |
| `Auth.RefreshPathExceptionsPropagate` | src/main/java/NestNet/NestNetWebSite/config/auth/CustomAuthorizationFilter.java:50-58 | With no presented token and a refresh cookie, an exception from validating the cookie, or from minting after it validates, ends the request with that same exception rather than a 401. |
| `Auth.NoCredentialsRejected` | src/main/java/NestNet/NestNetWebSite/config/auth/CustomAuthorizationFilter.java:43-70 | No access token with text and no refresh cookie is always rejected. |
| `Auth.RaisedOnlyFromProvider` | src/main/java/NestNet/NestNetWebSite/config/auth/CustomAuthorizationFilter.java:54-88 | With provider calls that never throw, the gatekeeper never ends by an exception. |
| `Auth.InvalidRefreshRejected` | src/main/java/NestNet/NestNetWebSite/config/auth/CustomAuthorizationFilter.java:53-64 | No access token with text and a refresh cookie that fails validation is rejected. |
| `Auth.MintedTokenSkipsBlacklist` | src/main/java/NestNet/NestNetWebSite/config/auth/CustomAuthorizationFilter.java:53-74 | With a valid refresh cookie and no presented token, the decision is the validation of the minted token. It is the same for every blacklist. |
| `Auth.BlacklistBeforeValidation` | src/main/java/NestNet/NestNetWebSite/config/auth/CustomAuthorizationFilter.java:74-85 | A presented token on the blacklist is rejected as blacklisted, whatever the provider's operations would do. |
| `Auth.AdmitUsesValidatedToken` | src/main/java/NestNet/NestNetWebSite/config/auth/CustomAuthorizationFilter.java:85-92 | An admitted request carries the authentication of the token that validation returned. That token comes from the presented, non-blacklisted token or from the minted one. |
| `Auth.CustomAuthorizationFilter.DoFilterInternal` | src/main/java/NestNet/NestNetWebSite/config/auth/CustomAuthorizationFilter.java:32-105 | Rejected: 401 with a JSON content type, no authentication installed, not forwarded. Admitted: the authentication is installed, and the request is forwarded once, with that authentication in the context. A provider exception: it propagates, and the response, the context and the chain are untouched. |
| `Servlet.SecurityContext.SetAuthentication` | src/main/java/NestNet/NestNetWebSite/config/auth/CustomAuthorizationFilter.java:91 | The context holds the installed authentication. |
| `Servlet.FilterChain.DoFilter` | src/main/java/NestNet/NestNetWebSite/config/auth/CustomAuthorizationFilter.java:104 | One forwarding is recorded, with the context's authentication at that moment. |
| `Stores.RefreshStore.Save` | src/main/java/NestNet/NestNetWebSite/controller/auth/AuthController.java:67 | The store maps the access token to the refresh token and its expiry. Other records are unchanged. |
| `AuthApi.AuthController.Login` | src/main/java/NestNet/NestNetWebSite/controller/auth/AuthController.java:55-76 | Failed credential check: 400 error, store untouched. Success: one record saved (access token to refresh token, expiring now + lifetime), plus three headers. The `Authorization` header resolves back to the access token, and the seconds header, computed as written, parses back to its value. For lifetimes within the `int` range that value is the lifetime in whole seconds. |
| `AuthApi.LoginEnablesRotation` | src/main/java/NestNet/NestNetWebSite/controller/auth/AuthController.java:64-67 | Once the pair is saved, a later request whose access token has expired and whose refresh cookie is the issued refresh token gets a new token. The new token is minted for the refresh token's user. |
| `AuthApi.ExpSeconds` | src/main/java/NestNet/NestNetWebSite/controller/auth/AuthController.java:73 | The result is an `int`. For every lifetime whose seconds fit an `int`, it is exactly the number of whole seconds. |
| `AuthApi.ExpSecondsAsWritten` | src/main/java/NestNet/NestNetWebSite/controller/auth/AuthController.java:73 | Narrowing before dividing gives at most 2147483 seconds in size. For lifetimes within the `int` range it is the lifetime in whole seconds. |
| `AuthApi.AsWrittenAgreesInIntRange` | src/main/java/NestNet/NestNetWebSite/controller/auth/AuthController.java:73 | For lifetimes that fit an `int`, the expression as written gives the same seconds. |
| `AuthApi.AsWrittenWrapsForThirtyDays` | src/main/java/NestNet/NestNetWebSite/controller/auth/AuthController.java:73 | For a 30-day lifetime the expression as written gives -1702967 seconds, where the lifetime is 2592000 seconds. |
| `JavaInt.NarrowToInt` | src/main/java/NestNet/NestNetWebSite/controller/auth/AuthController.java:73 | `(int)` of a long lies in the `int` range, agrees with its argument modulo 2^32, and is the identity inside the range. |
| `JavaInt.Quot` | src/main/java/NestNet/NestNetWebSite/controller/auth/AuthController.java:73 | Division rounds toward zero: the remainder has the dividend's sign and is smaller than the divisor. |
| `JavaInt.NatToDecimal` | src/main/java/NestNet/NestNetWebSite/controller/auth/AuthController.java:73 | The digits are non-empty, all decimal, and have no leading zero. |
| `JavaInt.DecimalString` | src/main/java/NestNet/NestNetWebSite/controller/auth/AuthController.java:73 | `Integer.toString`: a minus sign exactly for negative numbers, then decimal digits with no leading zero except for 0 itself. |
| `JavaInt.ParseNatToDecimal` | src/main/java/NestNet/NestNetWebSite/controller/auth/AuthController.java:73 | Parsing the decimal digits of n gives n. |
| `JavaInt.DecimalRoundTrip` | src/main/java/NestNet/NestNetWebSite/controller/auth/AuthController.java:73 | Reading `Integer.toString(n)` back gives n, for every n, negative ones included. |

## Left out

- Signing and parsing are not modelled. This covers JWT compaction, the HS512 signature, the Base64 key decoding in `afterPropertiesSet`, and the parser's rounding of the expiry claim to whole seconds. The codec is abstract, and `Sound` states what is assumed of it.
- Parser exceptions other than expiry and bad signature or structure propagate uncaught from `validateAccessToken` and are not modelled. These include unsupported tokens and illegal arguments such as an empty token.
- Reading the clock is not modelled. The current time is a parameter.
- Redis TTL expiry of blacklist entries, logout (which fills the blacklist) and the internals of the refresh-token service are not modelled. The authentication service is not part of this model either. The stores are a set and a map.
- Concurrent requests and any atomicity of rotation are not modelled. The model handles one request at a time.
- The `/attendance/member-attended` bypass is not modelled. On that path the filter forwards the request early and then carries on, so it may afterwards write 401, or forward the request a second time when a token minted from the refresh cookie validates.
- Which exceptions the gatekeeper's provider throws, and when, is not modelled: that provider's code is not part of this model, so any call may throw any of the modelled exceptions.
- The response writes done inside the provider the gatekeeper calls are not modelled, because that provider's code is not part of this model. This covers `createNewAccessToken(refreshToken, response)` and `validateAccessToken(…, response)`.
- `ApiResult.error`'s effect on the servlet response is not modelled, because `ApiResult` is not part of this model. The error is returned as a value.
- Overflow of `now + lifetime` in a 64-bit `long` is not modelled.
- Security configuration (route rules) and the sign-up and logout endpoints are not part of this model. The same holds for the post, member and manager controllers and services, and for logging.

## Findings

| source | as written | input that shows it | evidently intended | confidence | as-written member | corrected member |
|---|---|---|---|---|---|---|
| src/main/java/NestNet/NestNetWebSite/controller/auth/AuthController.java:73 | `(int)refreshTokenExpTime / 1000` narrows the millisecond lifetime to `int` before dividing | a refresh lifetime of 30 days, 2592000000 ms: the header says -1702967 | `(int)(refreshTokenExpTime / 1000)`, the lifetime in whole seconds (2592000) | medium, not executed | `AuthApi.AsWrittenWrapsForThirtyDays` | `AuthApi.ExpSeconds` |
