/**
 * The parts of the servlet API the authentication core touches: the
 * request's `Authorization` header and cookies, the response's status,
 * content type and headers, and the filter chain the gatekeeper forwards to.
 */
module Servlet {
  import opened Wrappers

  const SC_OK: int := 200
  const SC_BAD_REQUEST: int := 400
  const SC_UNAUTHORIZED: int := 401

  const AUTHORIZATION_HEADER: string := "Authorization"
  const APPLICATION_JSON: string := "application/json"

  datatype Cookie = Cookie(name: string, value: string)

  /**
   * An inbound request as the core sees it. `authorization` is
   * `getHeader("Authorization")` (None for an absent header) and `cookies`
   * is `getCookies()` (None when the request carries no cookie array).
   */
  datatype Request = Request(authorization: Option<string>, cookies: Option<seq<Cookie>>)

  /** The mutable response: `setStatus`, `setContentType` and `setHeader` update it in place. */
  class Response {
    var status: int
    var contentType: Option<string>
    var headers: map<string, string>

    constructor ()
      ensures status == SC_OK && contentType == None && headers == map[]
    {
      status := SC_OK;
      contentType := None;
      headers := map[];
    }
  }

  /**
   * The security context of the current request: the authentication that
   * downstream handlers see, if one was installed.
   */
  class SecurityContext<A> {
    var authentication: Option<A>

    constructor ()
      ensures authentication == None
    {
      authentication := None;
    }

    method SetAuthentication(a: A)
      modifies this
      ensures authentication == Some(a)
    {
      authentication := Some(a);
    }
  }

  /**
   * The rest of the filter chain. Each `doFilter` call is recorded together
   * with the authentication the security context held at that moment, so a
   * contract can say both how often and in what state the request went on.
   */
  class FilterChain<A> {
    var forwarded: seq<Option<A>>

    constructor ()
      ensures forwarded == []
    {
      forwarded := [];
    }

    method DoFilter(context: SecurityContext<A>)
      modifies this
      ensures forwarded == old(forwarded) + [context.authentication]
    {
      forwarded := forwarded + [context.authentication];
    }
  }
}
